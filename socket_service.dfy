/** The client's socket wrapper (src/services/socketService.ts): a transport
    that may be absent, and a registry from event name to the handlers
    registered for it, in registration order. */
module SocketRegistry {

  /** A handler function, identified as `indexOf` compares it: by identity. */
  type Handler = nat

  /** The events `setupBaseHandlers` listens to. */
  const BaseEvents: set<string> := {"connect", "connect_error", "disconnect"}

  const ErrorEvents: seq<string> := ["join_error", "answer_error", "game_error"]

  /** A socket.io client: whether the handshake has completed, the events
      it has a logging listener for, and the events it has a listener for that
      relays to the registry. */
  class Transport {
    var connected: bool
    var listeners: set<string>
    var relays: set<string>

    /** `io(url, { autoConnect: true })`: the handshake is still pending. */
    constructor ()
      ensures !connected && listeners == {} && relays == {}
    {
      connected := false;
      listeners := {};
      relays := {};
    }

    /** `socket.on(event, log)` in `setupBaseHandlers`. */
    method Listen(event: string)
      modifies this`listeners
      ensures listeners == old(listeners) + {event}
    {
      listeners := listeners + {event};
    }

    /** `socket.on(event, data => handlers.forEach(...))` in `on`. */
    method Relay(event: string)
      modifies this`relays
      ensures relays == old(relays) + {event}
    {
      relays := relays + {event};
    }

    /** The handshake completing. */
    method Establish()
      modifies this`connected
      ensures connected
    {
      connected := true;
    }

    /** `socket.disconnect()`. */
    method Close()
      modifies this`connected
      ensures !connected
    {
      connected := false;
    }
  }

  /** `handlers.indexOf(h)`: the first position holding `h`, or -1. */
  function IndexOf(handlers: seq<Handler>, h: Handler): (i: int)
    ensures -1 <= i < |handlers|
    ensures i == -1 <==> h !in handlers
    ensures i >= 0 ==> handlers[i] == h && forall j | 0 <= j < i :: handlers[j] != h
  {
    if handlers == [] then -1
    else if handlers[0] == h then 0
    else var k := IndexOf(handlers[1..], h); if k == -1 then -1 else k + 1
  }

  /** `indexOf` followed by `splice(index, 1)` when found. */
  function RemoveFirst(handlers: seq<Handler>, h: Handler): (r: seq<Handler>)
    ensures h !in handlers ==> r == handlers
    ensures h in handlers ==>
              var i := IndexOf(handlers, h);
              |r| == |handlers| - 1 && r == handlers[..i] + handlers[i + 1..]
  {
    var i := IndexOf(handlers, h);
    if i == -1 then handlers else handlers[..i] + handlers[i + 1..]
  }

  /** Removing a handler just registered for the first time undoes the
      registration; a handler registered twice is still there once. */
  lemma {:induction false} RemoveFirstUndoesAppend(handlers: seq<Handler>, h: Handler)
    ensures h !in handlers ==> RemoveFirst(handlers + [h], h) == handlers
    ensures h in handlers ==> h in RemoveFirst(handlers + [h], h)
  {
    var s := handlers + [h];
    var i := IndexOf(s, h);
    if h !in handlers {
      assert forall j | 0 <= j < |handlers| :: s[j] != h;
      assert i == |handlers|;
      assert s[..i] == handlers;
    } else {
      assert i < |handlers| by {
        var j :| 0 <= j < |handlers| && handlers[j] == h;
        assert s[j] == h;
      }
      assert RemoveFirst(s, h)[|s| - 2] == h;
    }
  }

  /** The error events `m` has no entry for, event by event. */
  lemma NewErrorEventsByCase(m: map<string, seq<Handler>>)
    ensures (set e | e in ErrorEvents && e !in m)
         == (if "join_error" in m then {} else {"join_error"})
          + (if "answer_error" in m then {} else {"answer_error"})
          + (if "game_error" in m then {} else {"game_error"})
  {
  }

  /** `get(event) || []` on a registry value. */
  function Lookup(m: map<string, seq<Handler>>, event: string): seq<Handler> {
    if event in m then m[event] else []
  }

  /** The registry after `h` is registered under each error event in turn. */
  function WithErrorHandler(m: map<string, seq<Handler>>, h: Handler): map<string, seq<Handler>> {
    var m1 := m["join_error" := Lookup(m, "join_error") + [h]];
    var m2 := m1["answer_error" := Lookup(m1, "answer_error") + [h]];
    m2["game_error" := Lookup(m2, "game_error") + [h]]
  }

  /** Registering under the error events adds exactly those keys, appends
      `h` to each of their lists and leaves every other list alone. */
  lemma WithErrorHandlerMeaning(m: map<string, seq<Handler>>, h: Handler)
    ensures forall e :: e in WithErrorHandler(m, h) <==> e in m || e in ErrorEvents
    ensures forall e | e in ErrorEvents :: Lookup(WithErrorHandler(m, h), e) == Lookup(m, e) + [h]
    ensures forall e | e !in ErrorEvents :: Lookup(WithErrorHandler(m, h), e) == Lookup(m, e)
  {
  }

  class SocketService {
    var socket: Transport?
    var eventHandlers: map<string, seq<Handler>>

    /** No handler is registered while there is no transport, and a
        transport always listens to the base events. */
    ghost predicate Valid()
      reads this, socket
    {
      && (socket == null ==> eventHandlers == map[])
      && (socket != null ==> BaseEvents <= socket.listeners)
    }

    constructor ()
      ensures Valid() && socket == null && eventHandlers == map[]
    {
      socket := null;
      eventHandlers := map[];
    }

    /** `eventHandlers.get(event) || []`. */
    function HandlersFor(event: string): (hs: seq<Handler>)
      reads this
      ensures event !in eventHandlers ==> hs == []
    {
      Lookup(eventHandlers, event)
    }

    /** The handlers called, in order, when the current transport delivers
        `event`: only an event whose relay `on` attached to this transport
        reaches the registry; the logging listeners of the base events do
        not. */
    function Dispatch(event: string): (hs: seq<Handler>)
      reads this, socket
      ensures socket == null ==> hs == []
      ensures socket != null && event in socket.relays ==> hs == HandlersFor(event)
      ensures socket != null && event !in socket.relays ==> hs == []
    {
      if socket != null && event in socket.relays then HandlersFor(event) else []
    }

    /** `connect`: nothing when connected; otherwise a new transport with only
        the base listeners replaces the old one, and the registry is kept. */
    method Connect()
      requires Valid()
      modifies this`socket
      ensures Valid() && eventHandlers == old(eventHandlers)
      ensures old(socket) != null && old(socket.connected) ==> socket == old(socket)
      ensures !(old(socket) != null && old(socket.connected)) ==>
                fresh(socket) && !socket.connected && socket.listeners == BaseEvents && socket.relays == {}
    {
      if socket != null && socket.connected {
        return;
      }
      var t := new Transport();
      socket := t;
      t.Listen("connect");
      t.Listen("connect_error");
      t.Listen("disconnect");
    }

    /** `on(event, handler)`: with a transport, the handler goes at the end of
        the event's list and a listener is attached the first time the event
        is seen; other events are untouched. */
    method On(event: string, handler: Handler)
      requires Valid()
      modifies this`eventHandlers, socket
      ensures Valid()
      ensures old(socket) == null ==> eventHandlers == old(eventHandlers)
      ensures socket == old(socket)
      ensures socket != null ==>
                && eventHandlers == old(eventHandlers)[event := old(HandlersFor(event)) + [handler]]
                && socket.connected == old(socket.connected)
                && socket.listeners == old(socket.listeners)
                && socket.relays == old(socket.relays) + (if event in old(eventHandlers) then {} else {event})
    {
      if socket == null {
        return;
      }
      if event !in eventHandlers {
        eventHandlers := eventHandlers[event := []];
        socket.Relay(event);
      }
      var handlers := HandlersFor(event);
      eventHandlers := eventHandlers[event := handlers + [handler]];
    }

    /** `on(event, handler)` and then a delivery of `event` by the current
        transport: the handler is reached, after those registered before it,
        exactly when this transport relays the event, which it does when it
        relayed it already or when the event was new to the registry. */
    method OnThenDispatch(event: string, handler: Handler) returns (hs: seq<Handler>)
      requires Valid() && socket != null
      modifies this`eventHandlers, socket
      ensures hs == Dispatch(event)
      ensures event in old(socket.relays) || event !in old(eventHandlers) ==>
                hs == old(HandlersFor(event)) + [handler]
      ensures event !in old(socket.relays) && event in old(eventHandlers) ==> hs == []
    {
      On(event, handler);
      hs := Dispatch(event);
    }

    /** `off(event, handler)`: the first occurrence goes; an absent handler
        or event changes nothing. */
    method Off(event: string, handler: Handler)
      requires Valid()
      modifies this`eventHandlers
      ensures Valid()
      ensures handler !in old(HandlersFor(event)) ==> eventHandlers == old(eventHandlers)
      ensures handler in old(HandlersFor(event)) ==>
                eventHandlers == old(eventHandlers)[event := RemoveFirst(old(HandlersFor(event)), handler)]
    {
      var handlers := HandlersFor(event);
      var index := IndexOf(handlers, handler);
      if index != -1 {
        eventHandlers := eventHandlers[event := RemoveFirst(handlers, handler)];
      }
    }

    /** `onError(handler)`: the same handler under each of the three error
        events. */
    method OnError(handler: Handler)
      requires Valid()
      modifies this`eventHandlers, socket
      ensures Valid() && socket == old(socket)
      ensures old(socket) == null ==> eventHandlers == old(eventHandlers)
      ensures socket != null ==>
                && (forall e :: e in eventHandlers <==> e in old(eventHandlers) || e in ErrorEvents)
                && (forall e | e in ErrorEvents :: HandlersFor(e) == old(HandlersFor(e)) + [handler])
                && (forall e | e !in ErrorEvents :: HandlersFor(e) == old(HandlersFor(e)))
                && socket.connected == old(socket.connected)
                && socket.listeners == old(socket.listeners)
                && socket.relays == old(socket.relays) + (set e | e in ErrorEvents && e !in old(eventHandlers))
    {
      ghost var before := eventHandlers;
      On("join_error", handler);
      ghost var afterJoin := eventHandlers;
      On("answer_error", handler);
      ghost var afterAnswer := eventHandlers;
      On("game_error", handler);
      if socket != null {
        assert "answer_error" in afterJoin <==> "answer_error" in before;
        assert "game_error" in afterAnswer <==> "game_error" in before;
        NewErrorEventsByCase(before);
        assert eventHandlers == WithErrorHandler(before, handler);
        WithErrorHandlerMeaning(before, handler);
      }
    }

    /** `disconnect`: the transport is closed if connected and dropped, and
        the registry emptied. */
    method Disconnect()
      requires Valid()
      modifies this`socket, this`eventHandlers, socket
      ensures Valid() && socket == null && eventHandlers == map[]
      ensures old(socket) != null ==> !old(socket).connected
    {
      if socket != null && socket.connected {
        socket.Close();
      }
      eventHandlers := map[];
      socket := null;
    }
  }

  /** A connection event registered through `on` and then a second `connect`
      while the first transport is still connecting: the new transport has only
      the logging listener for it, and the registry key already exists, so the
      registered handler is never reached. */
  method ReconnectDropsRegisteredHandler() returns (hs: seq<Handler>)
    ensures hs == []
  {
    var service := new SocketService();
    service.Connect();
    service.On("connect", 7);
    service.Connect();
    hs := service.Dispatch("connect");
  }
}
