/**
 * The HTTP routes that drive the MQTT service: `/api/connections/:id/connect`, `disconnect`,
 * `subscribe`, `unsubscribe` and `publish`. Each is gated by `requireAuth`, rejects an id
 * that is not a number, and answers with JSON, an error status, or not at all when the
 * service promise never settles.
 */
module MqttRoutes {
  import opened Wrappers
  import opened Seqs
  import opened Text
  import opened Store
  import opened UserRules
  import opened MqttService

  /** What the client receives. */
  datatype HttpReply = Json(success: bool) | Status(code: int, error: string) | NoReply

  /** Position of the first record with a blank topic, or the length when there is none. */
  function FirstBlank(ts: seq<TopicRecord>): (r: nat)
    ensures r <= |ts|
    ensures forall j :: 0 <= j < r ==> !IsBlank(ts[j].topic)
    ensures r < |ts| ==> IsBlank(ts[r].topic)
  {
    if ts == [] then 0
    else if IsBlank(ts[0].topic) then 0
    else 1 + FirstBlank(ts[1..])
  }

  /**
   * From position `i` on, the position of the first re-subscribe call that throws at a live
   * client: a blank topic, or a broker refusal (`acks(j)` is the broker's answer to call `j`).
   */
  function FirstThrowFrom(sub: seq<TopicRecord>, acks: nat -> Ack, i: nat): (k: nat)
    requires i <= |sub|
    ensures i <= k <= |sub|
    ensures forall j :: i <= j < k ==> !IsBlank(sub[j].topic) && acks(j) == Acked
    ensures k < |sub| ==> IsBlank(sub[k].topic) || acks(k) == BrokerError
    decreases |sub| - i
  {
    if i == |sub| || IsBlank(sub[i].topic) || acks(i) == BrokerError then i
    else
      assert acks(i) == Acked;
      FirstThrowFrom(sub, acks, i + 1)
  }

  function FirstThrow(sub: seq<TopicRecord>, acks: nat -> Ack): (k: nat)
    ensures k <= |sub|
    ensures forall j :: 0 <= j < k ==> !IsBlank(sub[j].topic) && acks(j) == Acked
    ensures k < |sub| ==> IsBlank(sub[k].topic) || acks(k) == BrokerError
  {
    FirstThrowFrom(sub, acks, 0)
  }

  /**
   * How many subscribe requests the re-subscribe loop sends: none without a live client;
   * otherwise one per call up to the first call that throws, that call included when the
   * broker refused it (its request went out) and excluded when its topic was blank (refused
   * before sending).
   */
  function Sent(sub: seq<TopicRecord>, live: bool, acks: nat -> Ack): (n: nat)
    ensures n <= |sub|
    ensures !live ==> n == 0
    ensures live ==> forall j :: 0 <= j < n ==> !IsBlank(sub[j].topic)
    ensures live ==> forall j :: 0 <= j < n - 1 ==> acks(j) == Acked
    ensures live && n < |sub| ==> IsBlank(sub[n].topic) || (n > 0 && acks(n - 1) == BrokerError)
    ensures live && |sub| > 0 && acks(0) == BrokerError ==> n == (if IsBlank(sub[0].topic) then 0 else 1)
    ensures live && (forall j :: 0 <= j < |sub| ==> acks(j) == Acked) ==> n == FirstBlank(sub)
  {
    if !live then 0
    else
      var k := FirstThrow(sub, acks);
      assert (forall j :: 0 <= j < |sub| ==> acks(j) == Acked) ==> k == FirstBlank(sub) by {
        if forall j :: 0 <= j < |sub| ==> acks(j) == Acked {
          var b := FirstBlank(sub);
          assert !(k < b);
          assert !(b < k);
        }
      }
      if k < |sub| && !IsBlank(sub[k].topic) then k + 1 else k
  }

  /**
   * The loop gets through every record: there is none, or the client is live and every call
   * is acknowledged, none with a blank topic.
   */
  predicate Completes(sub: seq<TopicRecord>, live: bool, acks: nat -> Ack) {
    sub == [] || (live && forall j :: 0 <= j < |sub| ==> !IsBlank(sub[j].topic) && acks(j) == Acked)
  }

  /**
   * The records the service appends during the first `n` calls: one copy of each record whose
   * call was acknowledged and whose own store write (`writeFails(j)`) did not throw, in order.
   */
  function Stored(sub: seq<TopicRecord>, acks: nat -> Ack, writeFails: nat -> bool, n: nat): (r: seq<TopicRecord>)
    requires n <= |sub|
    ensures |r| <= n
    ensures forall x :: x in r ==> x in sub[..n]
    decreases n
  {
    if n == 0 then []
    else
      var before := Stored(sub, acks, writeFails, n - 1);
      assert forall x :: x in sub[..n - 1] ==> x in sub[..n] by {
        assert sub[..n] == sub[..n - 1] + [sub[n - 1]];
      }
      before + (if acks(n - 1) == Acked && !writeFails(n - 1) then [sub[n - 1]] else [])
  }

  /** Every subscribed record of `id` belongs to `id` and is subscribed. */
  lemma SubscribedTopicsOf(topics: seq<TopicRecord>, id: ConnId)
    ensures forall i :: 0 <= i < |SubscribedTopics(topics, id)| ==>
              SubscribedTopics(topics, id)[i].connectionId == id && SubscribedTopics(topics, id)[i].isSubscribed
  {
    var own := TopicsOf(topics, id);
    var sub := SubscribedTopics(topics, id);
    forall i | 0 <= i < |sub| ensures sub[i].connectionId == id && sub[i].isSubscribed {
      FilterMember(own, (t: TopicRecord) => t.isSubscribed, i);
      var k :| 0 <= k < |own| && own[k] == sub[i];
    }
  }

  /** The service after the first `n` re-subscribe calls got through. */
  ghost function AfterResubscribe(v: ServiceView, sub: seq<TopicRecord>, n: nat, acks: nat -> Ack,
                                  writeFails: nat -> bool): ServiceView
    requires n <= |sub|
  {
    v.(brokerLog := v.brokerLog + Requests(sub[..n]), topics := v.topics + Stored(sub, acks, writeFails, n))
  }

  /** One more record adds its request at the end. */
  lemma RequestsSnoc(ts: seq<TopicRecord>, t: TopicRecord)
    ensures Requests(ts + [t]) == Requests(ts) + [RequestFor(t)]
  {
    var p := ts + [t];
    assert p[..|p| - 1] == ts;
  }

  /** One more call adds its request at the end of the log. */
  lemma LogStep(log: seq<BrokerRequest>, sub: seq<TopicRecord>, i: nat)
    requires i < |sub|
    ensures log + Requests(sub[..i + 1]) == (log + Requests(sub[..i])) + [RequestFor(sub[i])]
  {
    assert sub[..i + 1] == sub[..i] + [sub[i]];
    RequestsSnoc(sub[..i], sub[i]);
  }

  /** One more call adds its copy at the end of the table exactly when it was acknowledged and stored. */
  lemma TopicsStep(topics: seq<TopicRecord>, sub: seq<TopicRecord>, acks: nat -> Ack, writeFails: nat -> bool, i: nat)
    requires i < |sub|
    ensures topics + Stored(sub, acks, writeFails, i + 1)
         == (topics + Stored(sub, acks, writeFails, i)) + (if acks(i) == Acked && !writeFails(i) then [sub[i]] else [])
  {
  }

  /** One more call that got through appends one request and, when stored, one record. */
  lemma AfterResubscribeStep(v: ServiceView, sub: seq<TopicRecord>, i: nat, acks: nat -> Ack, writeFails: nat -> bool)
    requires i < |sub|
    ensures var w := AfterResubscribe(v, sub, i, acks, writeFails);
            AfterResubscribe(v, sub, i + 1, acks, writeFails)
              == w.(brokerLog := w.brokerLog + [RequestFor(sub[i])],
                    topics := w.topics + (if acks(i) == Acked && !writeFails(i) then [sub[i]] else []))
  {
    LogStep(v.brokerLog, sub, i);
    TopicsStep(v.topics, sub, acks, writeFails, i);
  }

  /**
   * The connect route's loop: `mqttService.subscribe(id, t.topic, t.qos)` for every stored
   * subscribed record of `id`, in store order, stopping at the first call that throws.
   * Call `j` meets the broker answer `acks(j)` and the store outcome `writeFails(j)`; each
   * call that gets through sends one request and, when acknowledged and stored, appends a
   * copy of the record.
   */
  method Resubscribe(service: Service, id: ConnId, acks: nat -> Ack, writeFails: nat -> bool) returns (ok: bool)
    requires service.Valid()
    modifies service, service.store
    ensures service.Valid()
    ensures var sub := SubscribedTopics(old(service.store.topics), id);
            var live := id in old(service.clients) && old(service.sessions[id].connected);
            && (ok <==> Completes(sub, live, acks))
            && service.View() == AfterResubscribe(old(service.View()), sub, Sent(sub, live, acks), acks, writeFails)
  {
    var sub := SubscribedTopics(service.store.topics, id);
    SubscribedTopicsOf(service.store.topics, id);
    ok := ResubscribeLoop(service, id, sub, acks, writeFails);
  }

  /**
   * One pass of the loop: the call for record `i`. A call that settles leaves the service
   * one record further along; one that throws leaves it where the whole loop ends.
   */
  method ResubscribeStep(service: Service, id: ConnId, sub: seq<TopicRecord>, i: nat, ghost v0: ServiceView,
                         ghost live: bool, acks: nat -> Ack, writeFails: nat -> bool) returns (settled: bool, next: nat)
    requires service.Valid()
    requires forall j :: 0 <= j < |sub| ==> sub[j].connectionId == id && sub[j].isSubscribed
    requires i < |sub| && i <= FirstThrow(sub, acks) && (i > 0 ==> live)
    requires live == (id in service.clients && service.sessions[id].connected)
    requires service.View() == AfterResubscribe(v0, sub, i, acks, writeFails)
    modifies service, service.store
    ensures service.Valid()
    ensures next == i + 1
    ensures settled ==> next <= FirstThrow(sub, acks) && live
    ensures settled ==> service.View() == AfterResubscribe(v0, sub, next, acks, writeFails)
    ensures live == (id in service.clients && service.sessions[id].connected)
    ensures !settled ==> !Completes(sub, live, acks)
    ensures !settled ==> service.View() == AfterResubscribe(v0, sub, Sent(sub, live, acks), acks, writeFails)
  {
    var t := sub[i];
    assert TopicRecord(id, t.topic, t.qos, true) == t && RequestFor(t) == SubscribeRequest(id, t.topic, t.qos);
    AfterResubscribeStep(v0, sub, i, acks, writeFails);
    var r := service.Subscribe(id, t.topic, t.qos, acks(i), writeFails(i));
    settled, next := r.Settled?, i + 1;
    if !settled {
      assert Sent(sub, live, acks) == i + (if live && !IsBlank(t.topic) then 1 else 0);
    }
  }

  /** The loop itself, over the records it was given. */
  method ResubscribeLoop(service: Service, id: ConnId, sub: seq<TopicRecord>, acks: nat -> Ack, writeFails: nat -> bool)
    returns (ok: bool)
    requires service.Valid()
    requires forall i :: 0 <= i < |sub| ==> sub[i].connectionId == id && sub[i].isSubscribed
    modifies service, service.store
    ensures service.Valid()
    ensures var live := id in old(service.clients) && old(service.sessions[id].connected);
            && (ok <==> Completes(sub, live, acks))
            && service.View() == AfterResubscribe(old(service.View()), sub, Sent(sub, live, acks), acks, writeFails)
  {
    ghost var live := id in service.clients && service.sessions[id].connected;
    ghost var v0 := service.View();
    var i := 0;
    while i < |sub|
      invariant 0 <= i <= FirstThrow(sub, acks)
      invariant i > 0 ==> live
      invariant service.Valid()
      invariant service.View() == AfterResubscribe(v0, sub, i, acks, writeFails)
      invariant live == (id in service.clients && service.sessions[id].connected)
    {
      var settled;
      settled, i := ResubscribeStep(service, id, sub, i, v0, live, acks, writeFails);
      if !settled {
        return false;
      }
    }
    return true;
  }

  /**
   * What the connect route does for a numeric id, stated on the whole state: its `disconnect`,
   * then `connect`, then the topic read and the re-subscribe loop, each stopping point with
   * the reply it gives. `writeFails` and `retryFails` are the two flag writes of the
   * disconnect, `topicsReadFails` the route's own `getTopicsByConnection`.
   */
  ghost predicate ConnectRouted(v: ServiceView, w: ServiceView, reply: HttpReply, conn: ConnId,
                                writeFails: bool, retryFails: bool, first: FirstEvent, topicsReadFails: bool,
                                acks: nat -> Ack, subscribeWriteFails: nat -> bool)
  {
    var registered := conn in v.clients;
    var d := Disconnected(v, conn, DisconnectWrites(registered, writeFails, retryFails));
    if writeFails && registered then reply == NoReply && w == d
    else if writeFails && retryFails then reply == Status(500, "Failed to connect to MQTT broker") && w == d
    else if conn !in v.connections then reply == Json(false) && w == d
    else
      var c := Connected(d, conn, first);
      if first.ConnectError? || topicsReadFails then reply == Status(500, "Failed to connect to MQTT broker") && w == c
      else
        var sub := SubscribedTopics(v.topics, conn);
        var live := first.fault != FlagWriteFails;
        && reply == (if Completes(sub, live, acks) then Json(true) else Status(500, "Failed to connect to MQTT broker"))
        && w == AfterResubscribe(c, sub, Sent(sub, live, acks), acks, subscribeWriteFails)
  }

  /** The connect route after its checks passed. */
  method DisconnectConnectResubscribe(service: Service, conn: ConnId, writeFails: bool, retryFails: bool,
                                      first: FirstEvent, topicsReadFails: bool,
                                      acks: nat -> Ack, subscribeWriteFails: nat -> bool)
    returns (reply: HttpReply)
    requires service.Valid()
    modifies service, service.store
    ensures service.Valid()
    ensures ConnectRouted(old(service.View()), service.View(), reply, conn, writeFails, retryFails, first,
                          topicsReadFails, acks, subscribeWriteFails)
  {
    var d := service.Disconnect(conn, writeFails, retryFails);
    if d.NeverSettles? {
      return NoReply;
    } else if d.Threw? {
      return Status(500, "Failed to connect to MQTT broker");
    }
    var c := service.Connect(conn, first);
    if c.Threw? {
      return Status(500, "Failed to connect to MQTT broker");
    }
    if c == Settled(true) {
      if topicsReadFails {
        return Status(500, "Failed to connect to MQTT broker");
      }
      var ok := Resubscribe(service, conn, acks, subscribeWriteFails);
      if !ok {
        return Status(500, "Failed to connect to MQTT broker");
      }
    }
    reply := Json(c.value);
  }

  /**
   * `POST /api/connections/:id/connect`: disconnect, then connect; after a connect that
   * resolves true, read the stored topics and subscribe again through the service to every
   * subscribed record.
   */
  method ConnectRoute(service: Service, session: Option<UserId>, id: Option<ConnId>,
                      writeFails: bool, retryFails: bool, first: FirstEvent, topicsReadFails: bool,
                      acks: nat -> Ack, subscribeWriteFails: nat -> bool)
    returns (reply: HttpReply)
    requires service.Valid()
    modifies service, service.store
    ensures service.Valid()
    ensures !SignedIn(session) ==> reply == Status(401, "Authentication required") && service.View() == old(service.View())
    ensures SignedIn(session) && id.None? ==> reply == Status(400, "Invalid connection ID") && service.View() == old(service.View())
    ensures SignedIn(session) && id.Some? ==>
              ConnectRouted(old(service.View()), service.View(), reply, id.value, writeFails, retryFails, first,
                            topicsReadFails, acks, subscribeWriteFails)
  {
    if !SignedIn(session) {
      return Status(401, "Authentication required");
    }
    if id.None? {
      return Status(400, "Invalid connection ID");
    }
    reply := DisconnectConnectResubscribe(service, id.value, writeFails, retryFails, first, topicsReadFails,
                                          acks, subscribeWriteFails);
  }

  /**
   * A success reply from the connect route means the new library client is connected, and
   * the service has it registered exactly when the stored flag says connected.
   */
  lemma ConnectRouteSuccess(v: ServiceView, w: ServiceView, conn: ConnId, writeFails: bool, retryFails: bool,
                            first: FirstEvent, topicsReadFails: bool, acks: nat -> Ack, subscribeWriteFails: nat -> bool)
    requires ConnectRouted(v, w, Json(true), conn, writeFails, retryFails, first, topicsReadFails, acks, subscribeWriteFails)
    ensures first.ConnectAck? && !topicsReadFails && conn in v.connections
    ensures conn in w.sessions && w.sessions[conn].connected
    ensures conn in w.connections && (conn in w.clients <==> w.connections[conn].isConnected)
  {
  }

  /**
   * Whatever its outcome, the connect route keeps every stored topic record, appends only
   * copies of the connection's stored subscribed records (so a record can now appear twice),
   * and stores no message and touches no observer.
   */
  lemma ConnectRouteAppendsCopies(v: ServiceView, w: ServiceView, reply: HttpReply, conn: ConnId,
                                  writeFails: bool, retryFails: bool, first: FirstEvent, topicsReadFails: bool,
                                  acks: nat -> Ack, subscribeWriteFails: nat -> bool)
    requires ConnectRouted(v, w, reply, conn, writeFails, retryFails, first, topicsReadFails, acks, subscribeWriteFails)
    ensures |v.topics| <= |w.topics| && w.topics[..|v.topics|] == v.topics
    ensures forall i :: |v.topics| <= i < |w.topics| ==> w.topics[i] in SubscribedTopics(v.topics, conn)
    ensures w.messages == v.messages && w.callbacks == v.callbacks
  {
    var d := Disconnected(v, conn, DisconnectWrites(conn in v.clients, writeFails, retryFails));
    if !(writeFails && (conn in v.clients || retryFails)) && conn in v.connections
       && !(first.ConnectError? || topicsReadFails) {
      var sub := SubscribedTopics(v.topics, conn);
      var n := Sent(sub, first.fault != FlagWriteFails, acks);
      var added := Stored(sub, acks, subscribeWriteFails, n);
      assert w.topics == v.topics + added;
      forall i | |v.topics| <= i < |w.topics| ensures w.topics[i] in sub {
        assert w.topics[i] == added[i - |v.topics|];
        assert added[i - |v.topics|] in sub[..n];
      }
    }
  }

  /** `POST /api/connections/:id/disconnect`: the reply follows the disconnect's outcome. */
  method DisconnectRoute(service: Service, session: Option<UserId>, id: Option<ConnId>, writeFails: bool, retryFails: bool)
    returns (reply: HttpReply)
    requires service.Valid()
    modifies service, service.store
    ensures service.Valid()
    ensures !SignedIn(session) ==> reply == Status(401, "Authentication required") && service.View() == old(service.View())
    ensures SignedIn(session) && id.None? ==> reply == Status(400, "Invalid connection ID") && service.View() == old(service.View())
    ensures SignedIn(session) && id.Some? ==>
              var registered := id.value in old(service.clients);
              && reply == (if !writeFails then Json(true)
                           else if registered then NoReply
                           else if retryFails then Status(500, "Failed to disconnect from MQTT broker")
                           else Json(false))
              && service.View() == Disconnected(old(service.View()), id.value, DisconnectWrites(registered, writeFails, retryFails))
  {
    if !SignedIn(session) {
      return Status(401, "Authentication required");
    }
    if id.None? {
      return Status(400, "Invalid connection ID");
    }
    var r := service.Disconnect(id.value, writeFails, retryFails);
    match r
    case Settled(b) => reply := Json(b);
    case Threw(_) => reply := Status(500, "Failed to disconnect from MQTT broker");
    case NeverSettles => reply := NoReply;
  }

  /**
   * `POST /api/connections/:id/subscribe`: 400 for a blank topic before any lookup, 500 when
   * `getConnection` throws, 404 for an unknown connection; then `UpsertAndSubscribe`.
   */
  method SubscribeRoute(service: Service, session: Option<UserId>, id: Option<ConnId>, topic: string, qos: int,
                        lookupFails: bool, upsertFails: bool, ack: Ack, writeFails: bool)
    returns (reply: HttpReply)
    requires service.Valid()
    modifies service, service.store
    ensures service.Valid()
    ensures !SignedIn(session) ==> reply == Status(401, "Authentication required") && service.View() == old(service.View())
    ensures SignedIn(session) && id.None? ==> reply == Status(400, "Invalid connection ID") && service.View() == old(service.View())
    ensures SignedIn(session) && id.Some? && IsBlank(topic) ==>
              reply == Status(400, "Topic is required") && service.View() == old(service.View())
    ensures SignedIn(session) && id.Some? && !IsBlank(topic) && lookupFails ==>
              reply == Status(500, "Failed to subscribe to topic") && service.View() == old(service.View())
    ensures SignedIn(session) && id.Some? && !IsBlank(topic) && !lookupFails && id.value !in old(service.store.connections) ==>
              reply == Status(404, "Connection not found") && service.View() == old(service.View())
    ensures SignedIn(session) && id.Some? && !IsBlank(topic) && !lookupFails && id.value in old(service.store.connections) ==>
              Subscribed(old(service.View()), service.View(), reply, id.value, topic, qos, upsertFails, ack, writeFails)
  {
    if !SignedIn(session) {
      return Status(401, "Authentication required");
    }
    if id.None? {
      return Status(400, "Invalid connection ID");
    }
    if topic == "" || Trim(topic) == "" {
      return Status(400, "Topic is required");
    }
    if lookupFails {
      return Status(500, "Failed to subscribe to topic");
    }
    var conn := id.value;
    if conn !in service.store.connections {
      return Status(404, "Connection not found");
    }
    reply := UpsertAndSubscribe(service, conn, topic, qos, upsertFails, ack, writeFails);
  }

  /**
   * What the subscribe route does for a known connection and a topic that is not blank: when
   * reading or writing the topic table throws, 500 and nothing changes; otherwise the record
   * for the trimmed topic is upserted, a live client sends the request with the topic as
   * given and, when acknowledged, succeeds and, unless its write throws, appends a record of
   * its own; every other part of the state stays as it was.
   */
  ghost predicate Subscribed(v: ServiceView, w: ServiceView, reply: HttpReply, conn: ConnId, topic: string, qos: int,
                             upsertFails: bool, ack: Ack, writeFails: bool)
  {
    var live := conn in v.clients && conn in v.sessions && v.sessions[conn].connected;
    var upserted := Upsert(v.topics, conn, Trim(topic), qos);
    var request := SubscribeRequest(conn, topic, qos);
    && (upsertFails ==> reply == Status(500, "Failed to subscribe to topic") && w == v)
    && (!upsertFails ==> reply == (if live && ack == Acked then Json(true) else Status(500, "Failed to subscribe to topic")))
    && (!upsertFails && !live ==> w == v.(topics := upserted))
    && (!upsertFails && live && (ack == BrokerError || writeFails) ==>
          w == v.(topics := upserted, brokerLog := v.brokerLog + [request]))
    && (!upsertFails && live && ack == Acked && !writeFails ==>
          w == v.(topics := upserted + [TopicRecord(conn, topic, qos, true)], brokerLog := v.brokerLog + [request]))
  }

  /**
   * The subscribe route after its checks passed: upsert the trimmed topic, then subscribe
   * through the service. `upsertFails` makes the route's topic read or its record write throw.
   */
  method UpsertAndSubscribe(service: Service, conn: ConnId, topic: string, qos: int, upsertFails: bool,
                            ack: Ack, writeFails: bool)
    returns (reply: HttpReply)
    requires service.Valid() && !IsBlank(topic)
    modifies service, service.store
    ensures service.Valid()
    ensures Subscribed(old(service.View()), service.View(), reply, conn, topic, qos, upsertFails, ack, writeFails)
  {
    if upsertFails {
      return Status(500, "Failed to subscribe to topic");
    }
    ghost var v0 := service.View();
    service.store.topics := Upsert(service.store.topics, conn, Trim(topic), qos);
    assert service.View() == v0.(topics := Upsert(v0.topics, conn, Trim(topic), qos));
    var r := service.Subscribe(conn, topic, qos, ack, writeFails);
    if r.Settled? {
      reply := Json(r.value);
    } else {
      reply := Status(500, "Failed to subscribe to topic");
    }
  }

  /**
   * `POST /api/connections/:id/unsubscribe`: 400 for a blank topic; 500 when the route's own
   * topic read or update throws (`markFails`); otherwise the first record for the trimmed
   * topic is marked unsubscribed whether or not the connection exists, then the service
   * unsubscribes with the topic as sent.
   */
  method UnsubscribeRoute(service: Service, session: Option<UserId>, id: Option<ConnId>, topic: string,
                          markFails: bool, ack: Ack, writeFails: bool)
    returns (reply: HttpReply)
    requires service.Valid()
    modifies service, service.store
    ensures service.Valid()
    ensures !SignedIn(session) ==> reply == Status(401, "Authentication required") && service.View() == old(service.View())
    ensures SignedIn(session) && id.None? ==> reply == Status(400, "Invalid connection ID") && service.View() == old(service.View())
    ensures SignedIn(session) && id.Some? && IsBlank(topic) ==>
              reply == Status(400, "Topic is required") && service.View() == old(service.View())
    ensures SignedIn(session) && id.Some? && !IsBlank(topic) && markFails ==>
              reply == Status(500, "Failed to unsubscribe from topic") && service.View() == old(service.View())
    ensures SignedIn(session) && id.Some? && !IsBlank(topic) && !markFails ==>
              var conn := id.value;
              var registered := conn in old(service.clients);
              var marked := MarkFirstUnsubscribed(old(service.store.topics), conn, Trim(topic));
              && reply == (if !registered || ack == BrokerError then Status(500, "Failed to unsubscribe from topic")
                           else if writeFails then NoReply else Json(true))
              && (!registered ==> service.View() == old(service.View()).(topics := marked))
              && (registered && (ack == BrokerError || writeFails) ==>
                    service.View() == old(service.View()).(topics := marked,
                                                           brokerLog := old(service.brokerLog) + [UnsubscribeRequest(conn, topic)]))
              && (registered && ack == Acked && !writeFails ==>
                    service.View() == old(service.View()).(topics := MarkFirstUnsubscribed(marked, conn, topic),
                                                           brokerLog := old(service.brokerLog) + [UnsubscribeRequest(conn, topic)]))
  {
    if !SignedIn(session) {
      return Status(401, "Authentication required");
    }
    if id.None? {
      return Status(400, "Invalid connection ID");
    }
    if topic == "" || Trim(topic) == "" {
      return Status(400, "Topic is required");
    }
    if markFails {
      return Status(500, "Failed to unsubscribe from topic");
    }
    var conn := id.value;
    ghost var v0 := service.View();
    service.store.topics := MarkFirstUnsubscribed(service.store.topics, conn, Trim(topic));
    assert service.View() == v0.(topics := MarkFirstUnsubscribed(v0.topics, conn, Trim(topic)));
    var r := service.Unsubscribe(conn, topic, ack, writeFails);
    match r
    case Settled(b) => reply := Json(b);
    case Threw(_) => reply := Status(500, "Failed to unsubscribe from topic");
    case NeverSettles => reply := NoReply;
  }

  /**
   * `POST /api/connections/:id/publish`: 400 for a blank topic or a missing payload; then
   * the service publishes, and an acknowledged publish stores exactly one message.
   */
  method PublishRoute(service: Service, session: Option<UserId>, id: Option<ConnId>, topic: string,
                      payload: Option<string>, qos: int, retain: bool, ack: Ack, writeFails: bool)
    returns (reply: HttpReply)
    requires service.Valid()
    modifies service, service.store
    ensures service.Valid()
    ensures !SignedIn(session) ==> reply == Status(401, "Authentication required") && service.View() == old(service.View())
    ensures SignedIn(session) && id.None? ==> reply == Status(400, "Invalid connection ID") && service.View() == old(service.View())
    ensures SignedIn(session) && id.Some? && IsBlank(topic) ==>
              reply == Status(400, "Topic is required") && service.View() == old(service.View())
    ensures SignedIn(session) && id.Some? && !IsBlank(topic) && payload.None? ==>
              reply == Status(400, "Payload is required") && service.View() == old(service.View())
    ensures SignedIn(session) && id.Some? && !IsBlank(topic) && payload.Some? ==>
              var registered := id.value in old(service.clients);
              reply == (if !registered || ack == BrokerError then Status(500, "Failed to publish message")
                        else if writeFails then NoReply else Json(true))
    ensures SignedIn(session) && id.Some? && !IsBlank(topic) && payload.Some? && id.value !in old(service.clients) ==>
              service.View() == old(service.View())
    ensures SignedIn(session) && id.Some? && !IsBlank(topic) && payload.Some? && id.value in old(service.clients) ==>
              var request := PublishRequest(id.value, topic, payload.value, qos, retain);
              && (ack == BrokerError || writeFails ==>
                    service.View() == old(service.View()).(brokerLog := old(service.brokerLog) + [request]))
              && (ack == Acked && !writeFails ==>
                    service.View() == old(service.View()).(
                      brokerLog := old(service.brokerLog) + [request],
                      messages := old(service.store.messages) + [MessageRecord(id.value, topic, payload.value, qos, retain)]))
  {
    if !SignedIn(session) {
      return Status(401, "Authentication required");
    }
    if id.None? {
      return Status(400, "Invalid connection ID");
    }
    if topic == "" || Trim(topic) == "" {
      return Status(400, "Topic is required");
    }
    if payload.None? {
      return Status(400, "Payload is required");
    }
    var r := service.Publish(id.value, topic, payload.value, qos, retain, ack, writeFails);
    match r
    case Settled(b) => reply := Json(b);
    case Threw(_) => reply := Status(500, "Failed to publish message");
    case NeverSettles => reply := NoReply;
  }
}
