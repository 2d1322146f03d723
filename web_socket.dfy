/** The second socket client: reconnection after errors with a capped attempt counter and
    doubling delays. The timers themselves are not modelled; a scheduled reconnect is
    recorded with its delay, and its firing is a later `Connect`. */
module WebSocketClient {
  import opened Wrappers
  import Text
  import ClientSockets

  const MaxReconnectAttempts: nat := 5
  const ReconnectDelay: nat := 1000
  const ServerDisconnect := "io server disconnect"

  function Pow2(n: nat): (r: nat)
    ensures r >= 1
  {
    if n == 0 then 1 else 2 * Pow2(n - 1)
  }

  /** `reconnectDelay * Math.pow(2, attempts)`. */
  function Delay(attempts: nat): nat {
    ReconnectDelay * Pow2(attempts)
  }

  /** Each further attempt waits twice as long. */
  lemma DelayDoubles(attempts: nat)
    ensures Delay(attempts + 1) == 2 * Delay(attempts)
  {
  }

  /** Below the cap, a delay is one of 1, 2, 4, 8 or 16 seconds. */
  lemma DelayBounds(attempts: nat)
    requires attempts < MaxReconnectAttempts
    ensures Delay(attempts) in {1000, 2000, 4000, 8000, 16000}
  {
    assert Pow2(1) == 2 && Pow2(2) == 4 && Pow2(3) == 8 && Pow2(4) == 16;
  }

  class WebSocketService {
    var socket: ClientSockets.Socket?
    var reconnectAttempts: nat
    /** The delays of the reconnects scheduled so far, oldest first. */
    var scheduled: seq<nat>

    ghost predicate Valid()
      reads this
    {
      reconnectAttempts <= MaxReconnectAttempts
    }

    constructor ()
      ensures Valid() && socket == null && reconnectAttempts == 0 && scheduled == []
    {
      socket := null;
      reconnectAttempts := 0;
      scheduled := [];
    }

    /** `connect`: fetch a token (`wsToken`, the outcome of `getWsToken`), then open a new
        socket with it. A failed fetch is rethrown and changes nothing. */
    method Connect(wsToken: Result<string, string>) returns (r: Result<ClientSockets.Socket, string>)
      requires Valid()
      modifies this
      ensures Valid()
      ensures wsToken.Err? ==> r == Err(wsToken.error) && socket == old(socket)
      ensures wsToken.Ok? ==> r.Ok? && fresh(r.value) && socket == r.value && r.value.auth == Some(wsToken.value)
      ensures reconnectAttempts == old(reconnectAttempts) && scheduled == old(scheduled)
    {
      if wsToken.Err? {
        return Err(wsToken.error);
      }
      var s := new ClientSockets.Socket(Some(wsToken.value));
      socket := s;
      return Ok(s);
    }

    /** The `connect` event. */
    method OnConnect()
      modifies this
      ensures Valid() && reconnectAttempts == 0
      ensures socket == old(socket) && scheduled == old(scheduled)
    {
      reconnectAttempts := 0;
    }

    /** `scheduleReconnect`: nothing at the cap; otherwise one reconnect is scheduled after
        `Delay(reconnectAttempts)`. The counter is not changed here. */
    method ScheduleReconnect()
      requires Valid()
      modifies this
      ensures Valid() && reconnectAttempts == old(reconnectAttempts) && socket == old(socket)
      ensures old(reconnectAttempts) >= MaxReconnectAttempts ==> scheduled == old(scheduled)
      ensures old(reconnectAttempts) < MaxReconnectAttempts ==>
        scheduled == old(scheduled) + [Delay(old(reconnectAttempts))]
    {
      if reconnectAttempts >= MaxReconnectAttempts {
        return;
      }
      var delay := ReconnectDelay * Pow2(reconnectAttempts);
      scheduled := scheduled + [delay];
    }

    /** `scheduleReconnect` as evidently intended: the attempt is counted, so the cap and
        the doubling delay apply to every error, not only to authentication failures. */
    method ScheduleReconnectCounted()
      requires Valid()
      modifies this
      ensures Valid() && socket == old(socket)
      ensures old(reconnectAttempts) >= MaxReconnectAttempts ==>
        reconnectAttempts == old(reconnectAttempts) && scheduled == old(scheduled)
      ensures old(reconnectAttempts) < MaxReconnectAttempts ==>
        reconnectAttempts == old(reconnectAttempts) + 1 && scheduled == old(scheduled) + [Delay(old(reconnectAttempts))]
    {
      if reconnectAttempts >= MaxReconnectAttempts {
        return;
      }
      scheduled := scheduled + [Delay(reconnectAttempts)];
      reconnectAttempts := reconnectAttempts + 1;
    }

    /** The `disconnect` event: a disconnect the server asked for is final. */
    method OnDisconnect(reason: string)
      requires Valid()
      modifies this
      ensures Valid() && reconnectAttempts == old(reconnectAttempts) && socket == old(socket)
      ensures reason == ServerDisconnect ==> scheduled == old(scheduled)
      ensures reason != ServerDisconnect && old(reconnectAttempts) < MaxReconnectAttempts ==>
        scheduled == old(scheduled) + [Delay(old(reconnectAttempts))]
      ensures old(reconnectAttempts) >= MaxReconnectAttempts ==> scheduled == old(scheduled)
    {
      if reason == ServerDisconnect {
        return;
      }
      ScheduleReconnect();
    }

    /** `handleAuthError`: nothing at the cap; otherwise one more attempt is counted and a
        new token fetched (`refresh`). A non-empty token is put on the socket, which is asked
        to connect; an empty token or a missing socket does nothing more; a failed fetch
        schedules a reconnect. */
    method HandleAuthError(refresh: Result<string, string>)
      requires Valid()
      modifies this, socket
      ensures Valid() && socket == old(socket)
      ensures old(reconnectAttempts) >= MaxReconnectAttempts ==>
        reconnectAttempts == old(reconnectAttempts) && scheduled == old(scheduled)
        && (socket != null ==> socket.auth == old(socket.auth) && socket.connectRequests == old(socket.connectRequests))
      ensures old(reconnectAttempts) < MaxReconnectAttempts ==> reconnectAttempts == old(reconnectAttempts) + 1
      ensures old(reconnectAttempts) < MaxReconnectAttempts && refresh.Ok? && refresh.value != "" && socket != null ==>
        socket.auth == Some(refresh.value) && socket.connectRequests == old(socket.connectRequests) + 1
        && scheduled == old(scheduled)
      ensures old(reconnectAttempts) < MaxReconnectAttempts && refresh.Ok? && (refresh.value == "" || socket == null) ==>
        scheduled == old(scheduled)
        && (socket != null ==> socket.auth == old(socket.auth) && socket.connectRequests == old(socket.connectRequests))
      ensures old(reconnectAttempts) < MaxReconnectAttempts && refresh.Err? ==>
        reconnectAttempts < MaxReconnectAttempts ==> scheduled == old(scheduled) + [Delay(reconnectAttempts)]
      ensures old(reconnectAttempts) < MaxReconnectAttempts && refresh.Err? && reconnectAttempts == MaxReconnectAttempts ==>
        scheduled == old(scheduled)
    {
      if reconnectAttempts >= MaxReconnectAttempts {
        return;
      }
      reconnectAttempts := reconnectAttempts + 1;
      if refresh.Ok? {
        if refresh.value != "" && socket != null {
          socket.SetAuth(Some(refresh.value));
          socket.Connect();
        }
      } else {
        ScheduleReconnect();
      }
    }

    /** The `connect_error` event: an authentication failure takes the token path, every
        other error schedules a reconnect. */
    method OnConnectError(message: string, refresh: Result<string, string>)
      requires Valid()
      modifies this, socket
      ensures Valid() && socket == old(socket)
      ensures !Text.Includes(message, "Authentication") ==>
        reconnectAttempts == old(reconnectAttempts)
        && (old(reconnectAttempts) < MaxReconnectAttempts ==> scheduled == old(scheduled) + [Delay(old(reconnectAttempts))])
      ensures Text.Includes(message, "Authentication") && old(reconnectAttempts) < MaxReconnectAttempts ==>
        reconnectAttempts == old(reconnectAttempts) + 1
      ensures old(reconnectAttempts) >= MaxReconnectAttempts ==>
        reconnectAttempts == old(reconnectAttempts) && scheduled == old(scheduled)
    {
      if Text.Includes(message, "Authentication") {
        HandleAuthError(refresh);
      } else {
        ScheduleReconnect();
      }
    }

    /** `disconnect`: the socket is disconnected and dropped and the counter reset. */
    method Disconnect()
      modifies this, socket
      ensures Valid() && socket == null && reconnectAttempts == 0 && scheduled == old(scheduled)
      ensures old(socket) != null ==> !old(socket).connected
    {
      if socket != null {
        socket.Disconnect();
        socket := null;
      }
      reconnectAttempts := 0;
    }

    function IsConnected(): (b: bool)
      reads this, socket
      ensures b <==> socket != null && socket.connected
    {
      socket != null && socket.connected
    }
  }

  /** Authentication errors alone never take the counter past the cap: after six of them
      the counter is five and the sixth changed nothing. */
  method AuthErrorsStopAtCap() returns (attempts: nat)
    ensures attempts == MaxReconnectAttempts
  {
    var w := new WebSocketService();
    var message := "Authentication error";
    assert Text.Includes(message, "Authentication") by {
      assert message[0..14] == "Authentication";
      assert Text.OccursAt(message, "Authentication", 0);
    }
    var i := 0;
    while i < 6
      invariant 0 <= i <= 6 && w.Valid() && w.socket == null
      invariant w.reconnectAttempts == if i < 5 then i else 5
      modifies w
    {
      w.OnConnectError(message, Err("offline"));
      i := i + 1;
    }
    attempts := w.reconnectAttempts;
  }

  /** As written, connection errors other than authentication failures retry for ever:
      after `n` of them `n` reconnects are scheduled, each after the first delay, and the
      counter never moves. */
  method NetworkErrorsRetryForever(n: nat) returns (w: WebSocketService)
    ensures w.reconnectAttempts == 0
    ensures |w.scheduled| == n
    ensures forall i :: 0 <= i < n ==> w.scheduled[i] == ReconnectDelay
  {
    w := new WebSocketService();
    var message := "timeout";
    assert !Text.Includes(message, "Authentication");
    var i := 0;
    while i < n
      invariant 0 <= i <= n && w.Valid() && w.socket == null && w.reconnectAttempts == 0
      invariant |w.scheduled| == i
      invariant forall k :: 0 <= k < i ==> w.scheduled[k] == ReconnectDelay
      modifies w
    {
      w.OnConnectError(message, Err("offline"));
      i := i + 1;
    }
  }

  /** With the counted schedule the retries stop at the cap: after `n` errors
      `min(n, 5)` reconnects are scheduled, the `k`th after `Delay(k)`. */
  method CountedErrorsStopAtCap(n: nat) returns (w: WebSocketService)
    ensures |w.scheduled| == if n < MaxReconnectAttempts then n else MaxReconnectAttempts
    ensures forall k :: 0 <= k < |w.scheduled| ==> w.scheduled[k] == Delay(k)
  {
    w := new WebSocketService();
    var i := 0;
    while i < n
      invariant 0 <= i <= n && w.Valid()
      invariant w.reconnectAttempts == |w.scheduled| == if i < MaxReconnectAttempts then i else MaxReconnectAttempts
      invariant forall k :: 0 <= k < |w.scheduled| ==> w.scheduled[k] == Delay(k)
      modifies w
    {
      w.ScheduleReconnectCounted();
      i := i + 1;
    }
  }
}
