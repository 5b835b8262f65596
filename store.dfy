/**
 * The persistence port as the MQTT core sees it: connection records with their
 * `isConnected` flag, topic records and message records. Row ids, timestamps and the
 * fields derived from payloads are not modelled; a topic record is addressed by its
 * position, which is what `updateTopic(record.id, ...)` amounts to when ids are unique.
 */
module Store {
  import opened Wrappers
  import opened Seqs

  type ConnId = int

  datatype ConnectionRecord = ConnectionRecord(clientId: string, isConnected: bool)

  datatype TopicRecord = TopicRecord(connectionId: ConnId, topic: string, qos: int, isSubscribed: bool)

  datatype MessageRecord = MessageRecord(connectionId: ConnId, topic: string, payload: string, qos: int, retain: bool)

  /** `updateConnection(id, { isConnected: flag })`: only that record's flag changes; a missing id changes nothing. */
  function SetConnected(conns: map<ConnId, ConnectionRecord>, id: ConnId, flag: bool): (r: map<ConnId, ConnectionRecord>)
    ensures r.Keys == conns.Keys
    ensures id in r ==> r[id] == ConnectionRecord(conns[id].clientId, flag)
    ensures forall k :: k in conns && k != id ==> r[k] == conns[k]
  {
    if id in conns then conns[id := conns[id].(isConnected := flag)] else conns
  }

  /** The second flag write wins. */
  lemma SetConnectedTwice(conns: map<ConnId, ConnectionRecord>, id: ConnId, first: bool, second: bool)
    ensures SetConnected(SetConnected(conns, id, first), id, second) == SetConnected(conns, id, second)
  {
  }

  /** `getTopicsByConnection(id)`: the records of connection `id`, in store order. */
  function TopicsOf(topics: seq<TopicRecord>, id: ConnId): (r: seq<TopicRecord>)
    ensures IsSubsequence(r, topics)
    ensures forall i :: 0 <= i < |r| ==> r[i].connectionId == id
    ensures forall i :: 0 <= i < |topics| && topics[i].connectionId == id ==> topics[i] in r
  {
    Filter(topics, (t: TopicRecord) => t.connectionId == id)
  }

  /** Every record `getTopicsByConnection` returns is a stored record. */
  lemma TopicsOfMember(topics: seq<TopicRecord>, id: ConnId, i: int)
    requires 0 <= i < |TopicsOf(topics, id)|
    ensures TopicsOf(topics, id)[i] in topics
  {
    FilterMember(topics, (t: TopicRecord) => t.connectionId == id, i);
  }

  /** A record of connection `id` for exactly this topic string. */
  predicate IsTopicOf(t: TopicRecord, id: ConnId, topic: string) {
    t.connectionId == id && t.topic == topic
  }

  /**
   * `getTopicsByConnection(id).find(t => t.topic === topic)`, as a position in the whole
   * table: the first record of connection `id` whose topic is exactly `topic`.
   */
  function FindTopic(topics: seq<TopicRecord>, id: ConnId, topic: string): (r: Option<nat>)
    ensures r.Some? ==> r.value < |topics| && IsTopicOf(topics[r.value], id, topic)
    ensures r.Some? ==> forall j :: 0 <= j < r.value ==> !IsTopicOf(topics[j], id, topic)
    ensures r.None? ==> forall j :: 0 <= j < |topics| ==> !IsTopicOf(topics[j], id, topic)
  {
    if topics == [] then None
    else if IsTopicOf(topics[0], id, topic) then Some(0)
    else
      match FindTopic(topics[1..], id, topic)
      case None => None
      case Some(k) => Some(k + 1)
  }

  /** Changing a record without changing its connection or topic does not move the lookup. */
  lemma FindTopicAfterUpdate(topics: seq<TopicRecord>, i: nat, x: TopicRecord, id: ConnId, topic: string)
    requires i < |topics| && x.connectionId == topics[i].connectionId && x.topic == topics[i].topic
    ensures FindTopic(topics[i := x], id, topic) == FindTopic(topics, id, topic)
  {
    var u := topics[i := x];
    assert forall j :: 0 <= j < |u| ==> (IsTopicOf(u[j], id, topic) <==> IsTopicOf(topics[j], id, topic));
    var a, b := FindTopic(topics, id, topic), FindTopic(u, id, topic);
    if a.Some? && b.Some? {
      assert !(a.value < b.value) && !(b.value < a.value);
    }
  }

  /**
   * The subscribe route's upsert: the first record of `id` for `topic` gets the new qos and
   * is marked subscribed; when there is none, one record is created at the end.
   */
  function Upsert(topics: seq<TopicRecord>, id: ConnId, topic: string, qos: int): (r: seq<TopicRecord>)
    ensures |r| == |topics| + (if FindTopic(topics, id, topic).None? then 1 else 0)
    ensures FindTopic(r, id, topic).Some?
    ensures r[FindTopic(r, id, topic).value] == TopicRecord(id, topic, qos, true)
    ensures FindTopic(topics, id, topic).Some? ==> FindTopic(r, id, topic) == FindTopic(topics, id, topic)
    ensures forall j :: 0 <= j < |topics| && FindTopic(topics, id, topic) != Some(j) ==> r[j] == topics[j]
  {
    match FindTopic(topics, id, topic)
    case Some(i) =>
      var x := topics[i].(qos := qos, isSubscribed := true);
      FindTopicAfterUpdate(topics, i, x, id, topic);
      topics[i := x]
    case None =>
      var r := topics + [TopicRecord(id, topic, qos, true)];
      assert FindTopic(r, id, topic) == Some(|topics|) by {
        var f := FindTopic(r, id, topic);
        assert IsTopicOf(r[|topics|], id, topic);
        assert f.Some? && f.value >= |topics|;
      }
      r
  }

  /** Upserting the same topic twice gives the same table as upserting it once. */
  lemma UpsertIdempotent(topics: seq<TopicRecord>, id: ConnId, topic: string, qos: int)
    ensures Upsert(Upsert(topics, id, topic, qos), id, topic, qos) == Upsert(topics, id, topic, qos)
  {
    var once := Upsert(topics, id, topic, qos);
    var i := FindTopic(once, id, topic).value;
    assert once[i := once[i].(qos := qos, isSubscribed := true)] == once;
  }

  /** The number of records of `id` for exactly `topic`. */
  function CountTopic(topics: seq<TopicRecord>, id: ConnId, topic: string): nat {
    |Filter(topics, (t: TopicRecord) => IsTopicOf(t, id, topic))|
  }

  /** Replacing a record with one that matches the same way keeps every count. */
  lemma {:induction false} FilterCountAfterUpdate(s: seq<TopicRecord>, i: nat, x: TopicRecord, p: TopicRecord -> bool)
    requires i < |s| && p(x) == p(s[i])
    ensures |Filter(s[i := x], p)| == |Filter(s, p)|
  {
    if i > 0 {
      assert s[i := x][1..] == s[1..][i - 1 := x];
      FilterCountAfterUpdate(s[1..], i - 1, x, p);
    } else {
      assert s[i := x][1..] == s[1..];
    }
  }

  /** The upsert never duplicates: afterwards exactly as many matching records as before, and at least one. */
  lemma UpsertCount(topics: seq<TopicRecord>, id: ConnId, topic: string, qos: int)
    ensures CountTopic(Upsert(topics, id, topic, qos), id, topic)
         == if CountTopic(topics, id, topic) == 0 then 1 else CountTopic(topics, id, topic)
  {
    var p := (t: TopicRecord) => IsTopicOf(t, id, topic);
    match FindTopic(topics, id, topic)
    case Some(i) =>
      FilterCountAfterUpdate(topics, i, topics[i].(qos := qos, isSubscribed := true), p);
      assert topics[i] in Filter(topics, p);
    case None =>
      var rec := TopicRecord(id, topic, qos, true);
      FilterNone(topics, p);
      FilterConcat(topics, [rec], p);
      assert [rec][1..] == [];
  }

  /**
   * The unsubscribe acknowledgement's update: the first record of `id` for exactly `topic`
   * is marked unsubscribed (kept, not deleted); all other records stay as they were.
   */
  function MarkFirstUnsubscribed(topics: seq<TopicRecord>, id: ConnId, topic: string): (r: seq<TopicRecord>)
    ensures |r| == |topics|
    ensures FindTopic(r, id, topic) == FindTopic(topics, id, topic)
    ensures FindTopic(topics, id, topic).Some? ==>
              var i := FindTopic(topics, id, topic).value;
              r[i] == topics[i].(isSubscribed := false)
    ensures forall j :: 0 <= j < |topics| && FindTopic(topics, id, topic) != Some(j) ==> r[j] == topics[j]
  {
    match FindTopic(topics, id, topic)
    case Some(i) =>
      var x := topics[i].(isSubscribed := false);
      FindTopicAfterUpdate(topics, i, x, id, topic);
      topics[i := x]
    case None => topics
  }

  /** Unsubscribing twice leaves the same table as unsubscribing once: no new record, the flag stays false. */
  lemma MarkFirstUnsubscribedIdempotent(topics: seq<TopicRecord>, id: ConnId, topic: string)
    ensures MarkFirstUnsubscribed(MarkFirstUnsubscribed(topics, id, topic), id, topic)
         == MarkFirstUnsubscribed(topics, id, topic)
  {
    var once := MarkFirstUnsubscribed(topics, id, topic);
    if FindTopic(topics, id, topic).Some? {
      var i := FindTopic(once, id, topic).value;
      assert once[i := once[i].(isSubscribed := false)] == once;
    }
  }

  /** The stored rows the MQTT core reads and writes. */
  class Store {
    var connections: map<ConnId, ConnectionRecord>
    var topics: seq<TopicRecord>
    var messages: seq<MessageRecord>

    constructor (connections: map<ConnId, ConnectionRecord>, topics: seq<TopicRecord>)
      ensures this.connections == connections && this.topics == topics && this.messages == []
    {
      this.connections := connections;
      this.topics := topics;
      this.messages := [];
    }
  }
}
