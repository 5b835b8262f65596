/**
 * The live-update socket server: every accepted socket joins `activeConnections` and
 * registers a message handler with the MQTT service; a heartbeat pings it every period and
 * terminates it when the previous ping went unanswered; `cleanup` undoes the registration;
 * shutdown closes the open sockets. A socket's handler is identified by the socket's id.
 */
module SocketGateway {
  import opened Store
  import opened MqttService

  type SocketId = CallbackId

  datatype ReadyState = Connecting | Open | Closing | Closed

  /** What the server writes to a socket. */
  datatype Frame =
    | ConnectionStatusFrame
    | MqttMessageFrame(message: MessageRecord)
    | PingFrame
    | CloseFrame(code: int, reason: string)

  /**
   * The state one `connection` callback keeps: the socket's ready state, the `pongReceived`
   * local, whether `pingInterval` is running, whether the pong/close/error listeners were
   * attached, whether `terminate` was called, and the frames written so far.
   */
  datatype Socket = Socket(readyState: ReadyState, pongReceived: bool, heartbeat: bool, listening: bool,
                           terminated: bool, sent: seq<Frame>)

  datatype GatewayView = GatewayView(active: set<SocketId>, sockets: map<SocketId, Socket>, serverOpen: bool,
                                     service: ServiceView)

  /** What `cleanup` leaves: the interval stopped, the handler unregistered, the socket inactive. */
  function Cleaned(v: GatewayView, ws: SocketId): (w: GatewayView)
    ensures ws !in w.active && ws !in w.service.callbacks
    ensures w.sockets.Keys == v.sockets.Keys && (ws in w.sockets ==> !w.sockets[ws].heartbeat)
  {
    v.(active := v.active - {ws},
       sockets := if ws in v.sockets then v.sockets[ws := v.sockets[ws].(heartbeat := false)] else v.sockets,
       service := v.service.(callbacks := v.service.callbacks - {ws}))
  }

  /** Calling `cleanup` a second time (a `close` after an `error`, say) changes nothing more. */
  lemma CleanedIdempotent(v: GatewayView, ws: SocketId)
    ensures Cleaned(Cleaned(v, ws), ws) == Cleaned(v, ws)
  {
    var once := Cleaned(v, ws);
    if ws in v.sockets {
      assert once.sockets[ws := once.sockets[ws].(heartbeat := false)] == once.sockets;
    }
  }

  /** `ws.close(1000, 'Server shutting down')` when the socket is open; nothing otherwise. */
  function ShutDown(s: Socket): (r: Socket)
    ensures s.readyState == Open ==>
              r.readyState == Closing && r.sent == s.sent + [CloseFrame(1000, "Server shutting down")]
    ensures s.readyState != Open ==> r == s
  {
    if s.readyState == Open then s.(readyState := Closing, sent := s.sent + [CloseFrame(1000, "Server shutting down")])
    else s
  }

  class Gateway {
    const service: Service
    /** `activeConnections`. */
    var activeConnections: set<SocketId>
    /** Every socket ever accepted. */
    var sockets: map<SocketId, Socket>
    /** The socket server accepts connections. */
    var serverOpen: bool

    /**
     * A known socket is active exactly when its handler is registered with the service, and
     * its heartbeat runs only while it is active.
     */
    ghost predicate Valid()
      reads this, service
    {
      && service.Valid()
      && activeConnections <= sockets.Keys
      && (forall ws :: ws in sockets ==> (ws in activeConnections <==> ws in service.callbacks))
      && (forall ws :: ws in sockets && sockets[ws].heartbeat ==> ws in activeConnections)
    }

    ghost function View(): GatewayView
      reads this, service, service.store
    {
      GatewayView(activeConnections, sockets, serverOpen, service.View())
    }

    constructor (service: Service)
      requires service.Valid()
      ensures Valid() && this.service == service
      ensures activeConnections == {} && sockets == map[] && serverOpen
    {
      this.service := service;
      activeConnections := {};
      sockets := map[];
      serverOpen := true;
    }

    /** `cleanup()`. */
    method Cleanup(ws: SocketId)
      requires Valid()
      modifies this, service
      ensures Valid()
      ensures View() == Cleaned(old(View()), ws)
    {
      if ws in sockets {
        sockets := sockets[ws := sockets[ws].(heartbeat := false)];
      }
      service.OffMessage(ws);
      activeConnections := activeConnections - {ws};
    }

    /**
     * `wss.on('connection')`: the socket joins the active set and its handler is registered;
     * when it is open the first frame it gets is `connection_status`. If that send throws,
     * the socket is cleaned up and nothing else is set up; otherwise the heartbeat starts
     * with `pongReceived` true and the listeners are attached.
     */
    method OnConnection(ws: SocketId, state: ReadyState, sendFails: bool)
      requires Valid() && ws !in sockets && ws !in service.callbacks
      modifies this, service
      ensures Valid()
      ensures serverOpen == old(serverOpen)
      ensures state == Open && sendFails ==>
                && sockets == old(sockets)[ws := Socket(state, true, false, false, false, [])]
                && activeConnections == old(activeConnections)
                && service.View() == old(service.View())
      ensures !(state == Open && sendFails) ==>
                && sockets == old(sockets)[ws := Socket(state, true, true, true, false,
                                                        if state == Open then [ConnectionStatusFrame] else [])]
                && activeConnections == old(activeConnections) + {ws}
                && service.View() == old(service.View()).(callbacks := old(service.callbacks) + {ws})
    {
      ghost var v0 := service.View();
      var s0 := sockets;
      activeConnections := activeConnections + {ws};
      sockets := sockets[ws := Socket(state, true, false, false, false, [])];
      service.OnMessage(ws);
      if state == Open && sendFails {
        // the initial send threw: cleanup() and return before the heartbeat starts
        assert v0.callbacks + {ws} - {ws} == v0.callbacks;
        assert sockets[ws := sockets[ws].(heartbeat := false)] == sockets;
        Cleanup(ws);
        return;
      }
      var sent := if state == Open then [ConnectionStatusFrame] else [];
      sockets := s0[ws := Socket(state, true, true, true, false, sent)];
    }

    /**
     * `messageHandler(message)`: an open socket gets one `mqtt_message` frame; a send that
     * throws cleans the socket up; a socket in any other state gets nothing.
     */
    method MessageHandler(ws: SocketId, message: MessageRecord, sendFails: bool)
      requires Valid() && ws in sockets
      modifies this, service
      ensures Valid()
      ensures old(sockets[ws].readyState) != Open ==> View() == old(View())
      ensures old(sockets[ws].readyState) == Open && sendFails ==> View() == Cleaned(old(View()), ws)
      ensures old(sockets[ws].readyState) == Open && !sendFails ==>
                View() == old(View()).(sockets := old(sockets)[ws := old(sockets[ws]).(
                            sent := old(sockets[ws].sent) + [MqttMessageFrame(message)])])
    {
      if sockets[ws].readyState == Open {
        if sendFails {
          Cleanup(ws);
        } else {
          sockets := sockets[ws := sockets[ws].(sent := sockets[ws].sent + [MqttMessageFrame(message)])];
        }
      }
    }

    /**
     * One heartbeat period: without a pong since the last tick the socket is terminated;
     * otherwise the flag is cleared and, if the socket is open, a ping is sent.
     */
    method HeartbeatTick(ws: SocketId)
      requires Valid() && ws in sockets && sockets[ws].heartbeat
      modifies this
      ensures Valid()
      ensures var s := old(sockets[ws]);
              && sockets == old(sockets)[ws := (
                   if !s.pongReceived then s.(terminated := true, readyState := if s.readyState == Closed then Closed else Closing)
                   else s.(pongReceived := false, sent := s.sent + (if s.readyState == Open then [PingFrame] else [])))]
              && activeConnections == old(activeConnections) && serverOpen == old(serverOpen)
    {
      var s := sockets[ws];
      if !s.pongReceived {
        // ws.terminate(): the connection is destroyed; its `close` event comes later
        sockets := sockets[ws := s.(terminated := true, readyState := if s.readyState == Closed then Closed else Closing)];
        return;
      }
      if s.readyState == Open {
        sockets := sockets[ws := s.(pongReceived := false, sent := s.sent + [PingFrame])];
      } else {
        assert s.sent + [] == s.sent;
        sockets := sockets[ws := s.(pongReceived := false)];
      }
    }

    /** `ws.on('pong')`: the flag is set again, and nothing else changes. */
    method HandlePong(ws: SocketId)
      requires Valid() && ws in sockets && sockets[ws].listening
      modifies this
      ensures Valid()
      ensures sockets == old(sockets)[ws := old(sockets[ws]).(pongReceived := true)]
      ensures activeConnections == old(activeConnections) && serverOpen == old(serverOpen)
    {
      sockets := sockets[ws := sockets[ws].(pongReceived := true)];
    }

    /** `ws.on('close')`: the socket is closed and cleaned up. */
    method HandleClose(ws: SocketId)
      requires Valid() && ws in sockets && sockets[ws].listening
      modifies this, service
      ensures Valid()
      ensures View() == Cleaned(old(View()).(sockets := old(sockets)[ws := old(sockets[ws]).(readyState := Closed)]), ws)
    {
      sockets := sockets[ws := sockets[ws].(readyState := Closed)];
      Cleanup(ws);
    }

    /** `ws.on('error')` and `ws.on('unexpected-response')`: the socket is cleaned up. */
    method HandleError(ws: SocketId)
      requires Valid() && ws in sockets && sockets[ws].listening
      modifies this, service
      ensures Valid()
      ensures View() == Cleaned(old(View()), ws)
    {
      Cleanup(ws);
    }

    /**
     * `gracefulShutdown()`: every active open socket is closed with code 1000 and reason
     * "Server shutting down"; any other socket is left as it is; the server stops accepting.
     */
    method GracefulShutdown()
      requires Valid()
      modifies this
      ensures Valid()
      ensures sockets.Keys == old(sockets).Keys
      ensures forall ws :: ws in old(sockets) ==>
                sockets[ws] == if ws in old(activeConnections) then ShutDown(old(sockets)[ws]) else old(sockets)[ws]
      ensures activeConnections == old(activeConnections) && !serverOpen
    {
      sockets := CloseEach(activeConnections, sockets);
      // wss.close()
      serverOpen := false;
    }
  }

  /** `activeConnections.forEach(ws => { if (ws.readyState === OPEN) ws.close(...) })`. */
  method CloseEach(active: set<SocketId>, sockets: map<SocketId, Socket>) returns (r: map<SocketId, Socket>)
    ensures r.Keys == sockets.Keys
    ensures forall ws :: ws in sockets ==> r[ws] == if ws in active then ShutDown(sockets[ws]) else sockets[ws]
  {
    r := sockets;
    var remaining := active;
    while remaining != {}
      invariant remaining <= active
      invariant r.Keys == sockets.Keys
      invariant forall ws :: ws in sockets ==> r[ws] == if ws in active - remaining then ShutDown(sockets[ws]) else sockets[ws]
      decreases |remaining|
    {
      var ws :| ws in remaining;
      if ws in r {
        r := r[ws := ShutDown(r[ws])];
      }
      remaining := remaining - {ws};
    }
  }
}
