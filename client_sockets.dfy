/** The browser's socket connection manager: one service object owning at most one
    socket.io client socket. */
module ClientSockets {
  import opened Wrappers

  /** A socket.io client socket as the services use it. Whether it is connected is decided
      by the transport (`Established`, `Lost`); the services only ask for a connection. */
  class Socket {
    var connected: bool
    var auth: Option<string>
    /** How many times a connection was asked for, the automatic one at creation included. */
    var connectRequests: nat
    var emitted: seq<(string, string)>
    /** How many times the service's internal listeners were attached to this socket. */
    var internalListeners: nat

    /** `io(url, {auth: {token}, autoConnect: true, ...})`. */
    constructor (token: Option<string>)
      ensures !connected && auth == token && connectRequests == 1
      ensures emitted == [] && internalListeners == 0
    {
      connected := false;
      auth := token;
      connectRequests := 1;
      emitted := [];
      internalListeners := 0;
    }

    /** `socket.connect()`: a request; the transport answers later. */
    method Connect()
      modifies this
      ensures connectRequests == old(connectRequests) + 1
      ensures connected == old(connected) && auth == old(auth)
      ensures emitted == old(emitted) && internalListeners == old(internalListeners)
    {
      connectRequests := connectRequests + 1;
    }

    /** `socket.disconnect()`. */
    method Disconnect()
      modifies this
      ensures !connected
      ensures auth == old(auth) && connectRequests == old(connectRequests)
      ensures emitted == old(emitted) && internalListeners == old(internalListeners)
    {
      connected := false;
    }

    method Emit(event: string, data: string)
      modifies this
      ensures emitted == old(emitted) + [(event, data)]
      ensures connected == old(connected) && auth == old(auth)
      ensures connectRequests == old(connectRequests) && internalListeners == old(internalListeners)
    {
      emitted := emitted + [(event, data)];
    }

    method SetAuth(token: Option<string>)
      modifies this
      ensures auth == token
      ensures connected == old(connected) && connectRequests == old(connectRequests)
      ensures emitted == old(emitted) && internalListeners == old(internalListeners)
    {
      auth := token;
    }

    /** The transport completed a connection. */
    method Established()
      modifies this
      ensures connected
      ensures auth == old(auth) && connectRequests == old(connectRequests)
      ensures emitted == old(emitted) && internalListeners == old(internalListeners)
    {
      connected := true;
    }

    /** The internal logging listeners are attached (`setupEventListeners`). */
    method AttachInternalListeners()
      modifies this
      ensures internalListeners == old(internalListeners) + 1
      ensures connected == old(connected) && auth == old(auth)
      ensures connectRequests == old(connectRequests) && emitted == old(emitted)
    {
      internalListeners := internalListeners + 1;
    }
  }

  /** `SocketService`. The reconnection options it passes to `io` (five attempts, one
      second apart) belong to the client library and are not modelled. */
  class SocketService {
    var socket: Socket?
    var token: Option<string>
    var listenersInitialized: bool

    /** The internal listeners are attached exactly once to the current socket, and the
        flag says whether there is one. */
    ghost predicate Valid()
      reads this, socket
    {
      (listenersInitialized <==> socket != null)
      && (socket != null ==> socket.internalListeners == 1)
    }

    constructor ()
      ensures Valid() && socket == null && token.None?
    {
      socket := null;
      token := None;
      listenersInitialized := false;
    }

    /** `connect(token)`: reuse the socket when there is one, reconnecting it when the token
        changed or it is not connected; otherwise create one. */
    method Connect(t: Option<string>) returns (s: Socket)
      requires Valid()
      modifies this, socket
      ensures Valid() && s == socket && token == t
      ensures old(socket) != null ==> s == old(socket)
      ensures old(socket) != null && old(socket.connected) && old(token) != t ==>
        s.auth == t && !s.connected && s.connectRequests == old(socket.connectRequests) + 1
        && s.emitted == old(socket.emitted)
      ensures old(socket) != null && old(socket.connected) && old(token) == t ==>
        s.auth == old(socket.auth) && s.connected && s.connectRequests == old(socket.connectRequests)
        && s.emitted == old(socket.emitted)
      ensures old(socket) != null && !old(socket.connected) ==>
        s.auth == t && !s.connected && s.connectRequests == old(socket.connectRequests) + 1
        && s.emitted == old(socket.emitted)
      ensures old(socket) == null ==>
        fresh(s) && s.auth == t && !s.connected && s.connectRequests == 1 && s.emitted == []
    {
      if socket != null && socket.connected && token != t {
        token := t;
        socket.SetAuth(t);
        socket.Disconnect();
        socket.Connect();
        return socket;
      }
      token := t;
      if socket != null && socket.connected {
        return socket;
      }
      if socket != null && !socket.connected {
        socket.SetAuth(token);
        socket.Connect();
        return socket;
      }
      var created := new Socket(token);
      socket := created;
      if !listenersInitialized {
        socket.AttachInternalListeners();
        listenersInitialized := true;
      }
      return socket;
    }

    /** `emit`: sent only on a connected socket. */
    method Emit(event: string, data: string) returns (ok: bool)
      requires Valid()
      modifies socket
      ensures Valid()
      ensures ok <==> old(socket) != null && old(socket.connected)
      ensures ok ==> socket.emitted == old(socket.emitted) + [(event, data)]
      ensures !ok && socket != null ==> socket.emitted == old(socket.emitted)
      ensures socket != null ==> socket.connected == old(socket.connected) && socket.auth == old(socket.auth)
    {
      if socket == null || !socket.connected {
        return false;
      }
      socket.Emit(event, data);
      return true;
    }

    /** `disconnect`: nothing without a socket; otherwise the socket is disconnected and
        dropped, and the listener flag cleared. */
    method Disconnect()
      requires Valid()
      modifies this, socket
      ensures Valid()
      ensures old(socket) == null ==> socket == null && token == old(token) && listenersInitialized == old(listenersInitialized)
      ensures old(socket) != null ==> socket == null && !listenersInitialized && !old(socket).connected
      ensures token == old(token)
    {
      if socket == null {
        return;
      }
      socket.Disconnect();
      socket := null;
      listenersInitialized := false;
    }

    function IsConnected(): (b: bool)
      reads this, socket
      ensures b <==> socket != null && socket.connected
    {
      socket != null && socket.connected
    }
  }

  /** A token refresh while connected reconnects the socket the page already holds rather
      than creating a second one. */
  method RefreshKeepsSocket() returns (first: Socket, second: Socket)
    ensures first == second
    ensures second.auth == Some("t2") && !second.connected && second.internalListeners == 1
  {
    var service := new SocketService();
    first := service.Connect(Some("t1"));
    first.Established();
    second := service.Connect(Some("t2"));
  }
}
