/**
 * `MqttService`: the registry of live broker clients keyed by connection id, the set of
 * message observers, and the handlers the `mqtt` library calls back on events. Library
 * events and acknowledgements are explicit methods; a broker refusal or a failing store
 * write is a parameter of the method that would meet it.
 */
module MqttService {
  import opened Wrappers
  import opened Seqs
  import opened Text
  import opened Store

  /** An observer registered with `onMessage`; the gateway registers one per socket. */
  type CallbackId = nat

  /** A client object of the `mqtt` library: its own `connected` flag and the record it was built from. */
  datatype Session = Session(connected: bool, connection: ConnectionRecord)

  /** What the service asks a broker to do. */
  datatype BrokerRequest =
    | SubscribeRequest(connectionId: ConnId, topic: string, qos: int)
    | UnsubscribeRequest(connectionId: ConnId, topic: string)
    | PublishRequest(connectionId: ConnId, topic: string, payload: string, qos: int, retain: bool)

  /** The broker's answer to a subscribe, unsubscribe or publish. */
  datatype Ack = Acked | BrokerError

  datatype ServiceError =
    | NotEstablished            // subscribe without a registered client
    | ClientNotConnected        // subscribe while the library client is not connected
    | EmptyTopic                // subscribe to a blank topic
    | SubscribeFailed           // the broker refused a subscribe
    | ConnectionNotEstablished  // unsubscribe or publish without a registered client
    | BrokerFailure             // the broker reported an error
    | StoreFailure              // disconnect could not write the connected flag

  /** How a promise of the service ends: resolved, rejected, or never settled. */
  datatype Outcome = Settled(value: bool) | Threw(error: ServiceError) | NeverSettles

  /** Which store call fails inside the broker `connect` handler, if any. */
  datatype ConnectFault = NoFault | FlagWriteFails | TopicReadFails

  /** The first thing the library reports for a new client. */
  datatype FirstEvent = ConnectAck(fault: ConnectFault) | ConnectError(writeFails: bool)

  /** One call of one observer with one message; `threw` records that the callback threw. */
  datatype Invocation = Invocation(callback: CallbackId, message: MessageRecord, threw: bool)

  /** Everything the service and the store hold, as one value. */
  datatype ServiceView = ServiceView(
    clients: map<ConnId, ConnectionRecord>,
    sessions: map<ConnId, Session>,
    orphans: seq<ConnId>,
    callbacks: set<CallbackId>,
    brokerLog: seq<BrokerRequest>,
    invocations: seq<Invocation>,
    connections: map<ConnId, ConnectionRecord>,
    topics: seq<TopicRecord>,
    messages: seq<MessageRecord>)

  /** `getTopicsByConnection(id).filter(t => t.isSubscribed)`. */
  function SubscribedTopics(topics: seq<TopicRecord>, id: ConnId): seq<TopicRecord> {
    Filter(TopicsOf(topics, id), (t: TopicRecord) => t.isSubscribed)
  }

  function RequestFor(t: TopicRecord): BrokerRequest {
    SubscribeRequest(t.connectionId, t.topic, t.qos)
  }

  /** One subscribe request per record, in order. */
  function Requests(ts: seq<TopicRecord>): (r: seq<BrokerRequest>)
    ensures |r| == |ts|
    ensures forall i :: 0 <= i < |ts| ==> r[i] == RequestFor(ts[i])
  {
    if ts == [] then [] else Requests(ts[..|ts| - 1]) + [RequestFor(ts[|ts| - 1])]
  }

  /** The subscribe requests the broker `connect` handler issues for connection `id`, in store order. */
  function ReplayRequests(topics: seq<TopicRecord>, id: ConnId): (r: seq<BrokerRequest>)
    ensures |r| == |SubscribedTopics(topics, id)| <= |topics|
  {
    Requests(SubscribedTopics(topics, id))
  }

  /** Every stored record of `id` with `isSubscribed` is subscribed again, at its stored qos. */
  lemma ReplayRequestsComplete(topics: seq<TopicRecord>, id: ConnId, j: int)
    requires 0 <= j < |topics| && topics[j].connectionId == id && topics[j].isSubscribed
    ensures SubscribeRequest(id, topics[j].topic, topics[j].qos) in ReplayRequests(topics, id)
  {
    var t := topics[j];
    var own := TopicsOf(topics, id);
    var subscribed := SubscribedTopics(topics, id);
    assert t in own;
    var k :| 0 <= k < |own| && own[k] == t;
    assert t in subscribed;
    var m :| 0 <= m < |subscribed| && subscribed[m] == t;
    assert ReplayRequests(topics, id)[m] == RequestFor(t);
  }

  /** Only those are: each request names a stored subscribed record of `id` and its qos. */
  lemma ReplayRequestsSound(topics: seq<TopicRecord>, id: ConnId, k: int)
    requires 0 <= k < |ReplayRequests(topics, id)|
    ensures exists j :: 0 <= j < |topics| && topics[j].connectionId == id && topics[j].isSubscribed
                        && ReplayRequests(topics, id)[k] == SubscribeRequest(id, topics[j].topic, topics[j].qos)
  {
    var own := TopicsOf(topics, id);
    var subscribed := SubscribedTopics(topics, id);
    var t := subscribed[k];
    FilterMember(own, (t: TopicRecord) => t.isSubscribed, k);
    var m :| 0 <= m < |own| && own[m] == t;
    TopicsOfMember(topics, id, m);
    var j :| 0 <= j < |topics| && topics[j] == t;
    assert ReplayRequests(topics, id)[k] == RequestFor(t);
  }

  /** `for (const topic of subscribed) client.subscribe(topic.topic, { qos: topic.qos })`. */
  method SubscribeEach(subscribed: seq<TopicRecord>) returns (sent: seq<BrokerRequest>)
    ensures sent == Requests(subscribed)
  {
    sent := [];
    var i := 0;
    while i < |subscribed|
      invariant 0 <= i <= |subscribed|
      invariant sent == Requests(subscribed[..i])
    {
      assert subscribed[..i + 1][..i] == subscribed[..i];
      sent := sent + [RequestFor(subscribed[i])];
      i := i + 1;
    }
    assert subscribed[..i] == subscribed;
  }

  /** No observer appears twice. */
  predicate Distinct(calls: seq<Invocation>) {
    forall i, j :: 0 <= i < j < |calls| ==> calls[i].callback != calls[j].callback
  }

  function Invoked(calls: seq<Invocation>): set<CallbackId> {
    set i | 0 <= i < |calls| :: calls[i].callback
  }

  lemma InvokedSnoc(calls: seq<Invocation>, x: Invocation)
    ensures Invoked(calls + [x]) == Invoked(calls) + {x.callback}
  {
    var c := calls + [x];
    assert c[|calls|] == x;
    forall cb | cb in Invoked(c) ensures cb in Invoked(calls) + {x.callback} {
      var i :| 0 <= i < |c| && c[i].callback == cb;
      if i < |calls| { assert c[i] == calls[i]; }
    }
    forall cb | cb in Invoked(calls) ensures cb in Invoked(c) {
      var i :| 0 <= i < |calls| && calls[i].callback == cb;
      assert c[i] == calls[i];
    }
  }

  /**
   * One round of `notifyMessageCallbacks`: every observer in `callbacks` is called exactly once
   * with `message`, those in `failing` throw, and a throw does not stop the others.
   */
  predicate IsRound(calls: seq<Invocation>, callbacks: set<CallbackId>, message: MessageRecord, failing: set<CallbackId>) {
    && Invoked(calls) == callbacks
    && Distinct(calls)
    && forall i :: 0 <= i < |calls| ==> calls[i].message == message && calls[i].threw == (calls[i].callback in failing)
  }

  /** `messageCallbacks.forEach(cb => { try { cb(message) } catch { ... } })` */
  method NotifyAll(callbacks: set<CallbackId>, message: MessageRecord, failing: set<CallbackId>) returns (calls: seq<Invocation>)
    ensures IsRound(calls, callbacks, message, failing)
    ensures |calls| == |callbacks|
  {
    calls := [];
    var remaining := callbacks;
    while remaining != {}
      invariant remaining <= callbacks
      invariant Invoked(calls) == callbacks - remaining
      invariant Distinct(calls)
      invariant forall i :: 0 <= i < |calls| ==> calls[i].message == message && calls[i].threw == (calls[i].callback in failing)
      invariant |calls| + |remaining| == |callbacks|
      decreases |remaining|
    {
      var cb :| cb in remaining;
      InvokedSnoc(calls, Invocation(cb, message, cb in failing));
      calls := calls + [Invocation(cb, message, cb in failing)];
      remaining := remaining - {cb};
    }
  }

  /** Re-inserting a key after removing it is the same as overwriting it. */
  lemma RemoveThenSet<K, V>(m: map<K, V>, k: K, v: V)
    ensures (m - {k})[k := v] == m[k := v]
  {
  }

  /** The second write to a key wins. */
  lemma SetTwice<K, V>(m: map<K, V>, k: K, a: V, b: V)
    ensures m[k := a][k := b] == m[k := b]
  {
  }

  /**
   * The state `disconnect(id)` leaves: the id unregistered, its running client gone when it
   * had one, and the flag written false when one of the writes got through.
   */
  function Disconnected(v: ServiceView, id: ConnId, flagWritten: bool): (w: ServiceView)
    ensures id !in w.clients && w.connections.Keys == v.connections.Keys
    ensures flagWritten && id in w.connections ==> !w.connections[id].isConnected
    ensures w.(clients := v.clients, sessions := v.sessions, connections := v.connections) == v
  {
    v.(clients := v.clients - {id},
       sessions := if id in v.clients then v.sessions - {id} else v.sessions,
       connections := if flagWritten then SetConnected(v.connections, id, false) else v.connections)
  }

  /**
   * Whether a flag write of `disconnect(id)` gets through: the first write, or, without a
   * registered client, the catch block's second write.
   */
  predicate DisconnectWrites(registered: bool, writeFails: bool, retryFails: bool) {
    !writeFails || (!registered && !retryFails)
  }

  /**
   * The state `connect(id)` leaves for a stored record, given what the library reports first:
   * the new library client runs (connected after an ack); it is registered, and the flag set,
   * unless the flag write throws; the stored subscriptions are replayed when no store call throws;
   * an earlier, unregistered client that still ran is recorded as orphaned.
   */
  function Connected(v: ServiceView, id: ConnId, first: FirstEvent): (w: ServiceView)
    requires id in v.connections
    ensures var registered := first.ConnectAck? && first.fault != FlagWriteFails;
            && (id in w.clients <==> registered)
            && id in w.sessions && w.sessions[id].connected == first.ConnectAck?
            && w.connections.Keys == v.connections.Keys && w.connections[id].isConnected == registered
            && w.topics == v.topics && w.messages == v.messages && w.callbacks == v.callbacks
  {
    var conn := v.connections[id];
    var registered := first.ConnectAck? && first.fault != FlagWriteFails;
    v.(clients := if registered then v.clients[id := conn] else v.clients - {id},
       sessions := v.sessions[id := Session(first.ConnectAck?, conn)],
       orphans := v.orphans + (if id in v.sessions && id !in v.clients then [id] else []),
       connections := SetConnected(v.connections, id, registered),
       brokerLog := v.brokerLog + (if first == ConnectAck(NoFault) then ReplayRequests(v.topics, id) else []))
  }

  class Service {
    const store: Store
    /** `clients`: the registry, id to the record its client was built from. */
    var clients: map<ConnId, ConnectionRecord>
    /** The library clients still running, the latest one per id. */
    var sessions: map<ConnId, Session>
    /** Ids whose running, unregistered client was replaced by a new one without being ended. */
    var orphans: seq<ConnId>
    /** `messageCallbacks`. */
    var callbacks: set<CallbackId>
    /** Every request sent to a broker, in order. */
    var brokerLog: seq<BrokerRequest>
    /** Every observer call, in order. */
    var invocations: seq<Invocation>

    /** A registered id has a running client, built from the registered record. */
    ghost predicate Valid()
      reads this
    {
      forall id :: id in clients ==> id in sessions && sessions[id].connection == clients[id]
    }

    ghost function View(): ServiceView
      reads this, store
    {
      ServiceView(clients, sessions, orphans, callbacks, brokerLog, invocations,
                  store.connections, store.topics, store.messages)
    }

    constructor (store: Store)
      ensures Valid() && this.store == store
      ensures clients == map[] && sessions == map[] && orphans == [] && callbacks == {}
      ensures brokerLog == [] && invocations == []
    {
      this.store := store;
      clients := map[];
      sessions := map[];
      orphans := [];
      callbacks := {};
      brokerLog := [];
      invocations := [];
    }

    /** `getConnectionStatus(id)`: registered and the library client reports connected; registration alone is not enough. */
    function GetConnectionStatus(id: ConnId): (r: bool)
      reads this
      requires Valid()
      ensures r <==> id in clients && id in sessions && sessions[id].connected
    {
      id in clients && sessions[id].connected
    }

    /** `onMessage(cb)`: set insertion, so registering twice leaves one entry. */
    method OnMessage(cb: CallbackId)
      requires Valid()
      modifies this
      ensures Valid()
      ensures View() == old(View()).(callbacks := old(callbacks) + {cb})
    {
      callbacks := callbacks + {cb};
    }

    /** `offMessage(cb)`. */
    method OffMessage(cb: CallbackId)
      requires Valid()
      modifies this
      ensures Valid()
      ensures View() == old(View()).(callbacks := old(callbacks) - {cb})
    {
      callbacks := callbacks - {cb};
    }

    /**
     * `disconnect(id)`: ends and unregisters the client, then writes `isConnected = false`.
     * Without a registered client it only writes the flag, and when that write throws the
     * catch block writes it once more and resolves false. `writeFails` makes the first write
     * throw, `retryFails` the second.
     */
    method Disconnect(id: ConnId, writeFails: bool, retryFails: bool) returns (r: Outcome)
      requires Valid()
      modifies this, store
      ensures Valid()
      ensures id !in clients
      ensures r == if !writeFails then Settled(true)
                   else if id in old(clients) then NeverSettles
                   else if retryFails then Threw(StoreFailure)
                   else Settled(false)
      ensures View() == Disconnected(old(View()), id, DisconnectWrites(id in old(clients), writeFails, retryFails))
    {
      if id in clients {
        // client.end(true, {}, callback): the client stops; the callback unregisters and writes the flag
        clients := clients - {id};
        sessions := sessions - {id};
        if writeFails {
          // the write throws inside the async callback, so resolve is never reached
          r := NeverSettles;
        } else {
          store.connections := SetConnected(store.connections, id, false);
          r := Settled(true);
        }
      } else if !writeFails {
        store.connections := SetConnected(store.connections, id, false);
        r := Settled(true);
      } else if retryFails {
        // the catch block writes the flag again, and that write throws too
        r := Threw(StoreFailure);
      } else {
        store.connections := SetConnected(store.connections, id, false);
        r := Settled(false);
      }
    }

    /**
     * The library's `connect` event (the first one, or one after an automatic reconnect):
     * the client is connected; unless the flag write throws, the flag is set, the client is
     * registered and, unless reading the topics throws, every stored subscribed topic of `id`
     * is subscribed again at its stored qos.
     */
    method HandleConnectEvent(id: ConnId, fault: ConnectFault)
      requires Valid() && id in sessions
      modifies this, store
      ensures Valid()
      ensures GetConnectionStatus(id) == (fault != FlagWriteFails || id in old(clients))
      ensures View() == old(View()).(
                sessions := old(sessions)[id := old(sessions)[id].(connected := true)],
                clients := if fault == FlagWriteFails then old(clients) else old(clients)[id := old(sessions)[id].connection],
                connections := if fault == FlagWriteFails then old(store.connections) else SetConnected(old(store.connections), id, true),
                brokerLog := old(brokerLog) + if fault == NoFault then ReplayRequests(old(store.topics), id) else [])
    {
      sessions := sessions[id := sessions[id].(connected := true)];
      if fault == FlagWriteFails {
        return;
      }
      store.connections := SetConnected(store.connections, id, true);
      clients := clients[id := sessions[id].connection];
      if fault == TopicReadFails {
        return;
      }
      var sent := SubscribeEach(SubscribedTopics(store.topics, id));
      brokerLog := brokerLog + sent;
    }

    /** The library's `error` event: the flag is written false (a failing write is caught). */
    method HandleErrorEvent(id: ConnId, writeFails: bool)
      requires Valid() && id in sessions
      modifies this, store
      ensures Valid()
      ensures View() == old(View()).(
                connections := if writeFails then old(store.connections) else SetConnected(old(store.connections), id, false))
    {
      if !writeFails {
        store.connections := SetConnected(store.connections, id, false);
      }
    }

    /** The library's `close` event: the flag is written false and the id is unregistered even if that write throws. */
    method HandleCloseEvent(id: ConnId, writeFails: bool)
      requires Valid() && id in sessions
      modifies this, store
      ensures Valid()
      ensures id !in clients && !GetConnectionStatus(id)
      ensures View() == old(View()).(
                clients := old(clients) - {id},
                sessions := old(sessions)[id := old(sessions)[id].(connected := false)],
                connections := if writeFails then old(store.connections) else SetConnected(old(store.connections), id, false))
    {
      sessions := sessions[id := sessions[id].(connected := false)];
      if !writeFails {
        store.connections := SetConnected(store.connections, id, false);
      }
      clients := clients - {id};
    }

    /** The library's `offline` event: the flag is written false but the client stays registered. */
    method HandleOfflineEvent(id: ConnId, writeFails: bool)
      requires Valid() && id in sessions
      modifies this, store
      ensures Valid()
      ensures (id in clients <==> id in old(clients)) && !GetConnectionStatus(id)
      ensures View() == old(View()).(
                sessions := old(sessions)[id := old(sessions)[id].(connected := false)],
                connections := if writeFails then old(store.connections) else SetConnected(old(store.connections), id, false))
    {
      sessions := sessions[id := sessions[id].(connected := false)];
      if !writeFails {
        store.connections := SetConnected(store.connections, id, false);
      }
    }

    /**
     * The library's `message` event: the message is stored, then every registered observer is
     * called once with it. When the store write throws, the error is logged and nothing else happens.
     */
    method HandleMessageEvent(id: ConnId, topic: string, payload: string, qos: int, retain: bool,
                              writeFails: bool, failing: set<CallbackId>)
      requires Valid() && id in sessions
      modifies this, store
      ensures Valid()
      ensures writeFails ==> View() == old(View())
      ensures !writeFails ==>
                var m := MessageRecord(id, topic, payload, qos, retain);
                && |old(invocations)| <= |invocations|
                && invocations[..|old(invocations)|] == old(invocations)
                && IsRound(invocations[|old(invocations)|..], old(callbacks), m, failing)
                && View() == old(View()).(messages := old(store.messages) + [m], invocations := invocations)
    {
      if writeFails {
        return;
      }
      var m := MessageRecord(id, topic, payload, qos, retain);
      store.messages := store.messages + [m];
      var calls := NotifyAll(callbacks, m, failing);
      ghost var before := invocations;
      invocations := invocations + calls;
      assert invocations[|before|..] == calls;
      assert invocations[..|before|] == before;
    }

    /**
     * `connect(id)`: false when the record is missing; otherwise any registered client is
     * disconnected first, a new library client is started, and `first` is what the library
     * reports for it. A `connect` event resolves true whatever the store does; an `error`
     * event rejects.
     */
    method Connect(id: ConnId, first: FirstEvent) returns (r: Outcome)
      requires Valid()
      modifies this, store
      ensures Valid()
      ensures id !in old(store.connections) ==> r == Settled(false) && View() == old(View())
      ensures id in old(store.connections) ==> r == if first.ConnectAck? then Settled(true) else Threw(BrokerFailure)
      ensures id in old(store.connections) ==>
                && GetConnectionStatus(id) == (first.ConnectAck? && first.fault != FlagWriteFails)
                && View() == Connected(old(View()), id, first)
    {
      if id !in store.connections {
        return Settled(false);
      }
      var conn := store.connections[id];
      ghost var v0 := View();
      var registered := first.ConnectAck? && first.fault != FlagWriteFails;
      var _ := Disconnect(id, false, false);
      if id in sessions {
        // a client that was never registered or already unregistered keeps running unended
        orphans := orphans + [id];
      }
      sessions := sessions[id := Session(false, conn)];
      ghost var v1 := View();
      assert v1 == v0.(clients := v0.clients - {id},
                       sessions := v0.sessions[id := Session(false, conn)],
                       orphans := v0.orphans + if id in v0.sessions && id !in v0.clients then [id] else [],
                       connections := SetConnected(v0.connections, id, false)) by {
        assert v1.sessions == v0.sessions[id := Session(false, conn)];
      }
      SetConnectedTwice(v0.connections, id, false, registered);
      match first
      case ConnectAck(fault) =>
        SetTwice(v0.sessions, id, Session(false, conn), Session(true, conn));
        RemoveThenSet(v0.clients, id, conn);
        HandleConnectEvent(id, fault);
        r := Settled(true);
      case ConnectError(writeFails) =>
        HandleErrorEvent(id, writeFails);
        r := Threw(BrokerFailure);
    }

    /**
     * `subscribe(id, topic, qos)`: refuses, changing nothing, without a registered client, with
     * a disconnected client, or with a blank topic (in that order). On acknowledgement one
     * record is appended (also when one exists already); it resolves true even if that write throws.
     */
    method Subscribe(id: ConnId, topic: string, qos: int, ack: Ack, writeFails: bool) returns (r: Outcome)
      requires Valid()
      modifies this, store
      ensures Valid()
      ensures var live := id in old(clients) && old(sessions[id].connected);
              var sent := live && !IsBlank(topic);
              && r == (if id !in old(clients) then Threw(NotEstablished)
                       else if !live then Threw(ClientNotConnected)
                       else if IsBlank(topic) then Threw(EmptyTopic)
                       else if ack == Acked then Settled(true)
                       else Threw(SubscribeFailed))
              && (!sent ==> View() == old(View()))
              && (sent && (ack == BrokerError || writeFails) ==>
                    View() == old(View()).(brokerLog := old(brokerLog) + [SubscribeRequest(id, topic, qos)]))
              && (sent && ack == Acked && !writeFails ==>
                    View() == old(View()).(brokerLog := old(brokerLog) + [SubscribeRequest(id, topic, qos)],
                                           topics := old(store.topics) + [TopicRecord(id, topic, qos, true)]))
    {
      if id !in clients {
        return Threw(NotEstablished);
      }
      if !sessions[id].connected {
        return Threw(ClientNotConnected);
      }
      if topic == "" || Trim(topic) == "" {
        assert IsBlank(topic);
        return Threw(EmptyTopic);
      }
      assert !IsBlank(topic);
      brokerLog := brokerLog + [SubscribeRequest(id, topic, qos)];
      if ack == BrokerError {
        return Threw(SubscribeFailed);
      }
      if !writeFails {
        store.topics := store.topics + [TopicRecord(id, topic, qos, true)];
      }
      r := Settled(true);
    }

    /**
     * `unsubscribe(id, topic)`: needs only a registered client. On acknowledgement the first
     * record of `id` with exactly `topic` is marked unsubscribed; a throwing store call there
     * leaves the promise unsettled.
     */
    method Unsubscribe(id: ConnId, topic: string, ack: Ack, writeFails: bool) returns (r: Outcome)
      requires Valid()
      modifies this, store
      ensures Valid()
      ensures id !in old(clients) ==> r == Threw(ConnectionNotEstablished) && View() == old(View())
      ensures id in old(clients) ==>
                r == (if ack == BrokerError then Threw(BrokerFailure) else if writeFails then NeverSettles else Settled(true))
      ensures id in old(clients) && (ack == BrokerError || writeFails) ==>
                View() == old(View()).(brokerLog := old(brokerLog) + [UnsubscribeRequest(id, topic)])
      ensures id in old(clients) && ack == Acked && !writeFails ==>
                View() == old(View()).(brokerLog := old(brokerLog) + [UnsubscribeRequest(id, topic)],
                                       topics := MarkFirstUnsubscribed(old(store.topics), id, topic))
    {
      if id !in clients {
        return Threw(ConnectionNotEstablished);
      }
      brokerLog := brokerLog + [UnsubscribeRequest(id, topic)];
      if ack == BrokerError {
        return Threw(BrokerFailure);
      }
      if writeFails {
        return NeverSettles;
      }
      store.topics := MarkFirstUnsubscribed(store.topics, id, topic);
      r := Settled(true);
    }

    /**
     * `publish(id, topic, payload, qos, retain)`: needs only a registered client. On
     * acknowledgement exactly one message is stored; no observer is called.
     */
    method Publish(id: ConnId, topic: string, payload: string, qos: int, retain: bool, ack: Ack, writeFails: bool)
      returns (r: Outcome)
      requires Valid()
      modifies this, store
      ensures Valid()
      ensures id !in old(clients) ==> r == Threw(ConnectionNotEstablished) && View() == old(View())
      ensures id in old(clients) ==>
                r == (if ack == BrokerError then Threw(BrokerFailure) else if writeFails then NeverSettles else Settled(true))
      ensures id in old(clients) && (ack == BrokerError || writeFails) ==>
                View() == old(View()).(brokerLog := old(brokerLog) + [PublishRequest(id, topic, payload, qos, retain)])
      ensures id in old(clients) && ack == Acked && !writeFails ==>
                View() == old(View()).(brokerLog := old(brokerLog) + [PublishRequest(id, topic, payload, qos, retain)],
                                       messages := old(store.messages) + [MessageRecord(id, topic, payload, qos, retain)])
    {
      if id !in clients {
        return Threw(ConnectionNotEstablished);
      }
      brokerLog := brokerLog + [PublishRequest(id, topic, payload, qos, retain)];
      if ack == BrokerError {
        return Threw(BrokerFailure);
      }
      if writeFails {
        return NeverSettles;
      }
      store.messages := store.messages + [MessageRecord(id, topic, payload, qos, retain)];
      r := Settled(true);
    }
  }
}
