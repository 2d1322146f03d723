/** The page-wide socket provider: it opens the socket once the user is authenticated and
    keeps the list of online user ids from the presence events. */
module SocketContext {
  import opened Wrappers
  import Lists
  import ClientSockets

  /** `presence:online`: the id is appended unless it is already listed. */
  function OnOnline(prev: seq<string>, userId: string): (r: seq<string>)
    ensures userId in r
    ensures Lists.Distinct(prev) ==> Lists.Distinct(r)
    ensures userId in prev ==> r == prev
    ensures userId !in prev ==> r == prev + [userId]
  {
    Lists.AppendIfAbsent(prev, userId)
  }

  /** `presence:offline`: every occurrence of the id is removed. */
  function OnOffline(prev: seq<string>, userId: string): (r: seq<string>)
    ensures userId !in r
    ensures forall u :: u != userId ==> (u in r <==> u in prev)
    ensures Lists.Distinct(prev) ==> Lists.Distinct(r)
  {
    Lists.Without(prev, userId)
  }

  lemma OnlineIdempotent(prev: seq<string>, userId: string)
    ensures OnOnline(OnOnline(prev, userId), userId) == OnOnline(prev, userId)
  {
  }

  /** A user who comes online and goes offline again leaves the list as it was. */
  lemma OnlineThenOffline(prev: seq<string>, userId: string)
    requires userId !in prev
    ensures OnOffline(OnOnline(prev, userId), userId) == prev
  {
    Lists.WithoutAppend(prev, userId, userId);
    Lists.WithoutAbsent(prev, userId);
  }

  /** `presence:offline` keeps the other ids in their order: it is exactly the filter. */
  lemma {:induction false} OfflineIsFilter(prev: seq<string>, userId: string)
    ensures OnOffline(prev, userId) == Lists.Filter(prev, Lists.Unequal(userId))
  {
    Lists.WithoutIsFilter(prev, userId);
  }

  /** `SocketProvider`'s state: the socket it handed out, the online list, and how often a
      new message made it refresh the chat list. */
  class SocketProvider {
    const service: ClientSockets.SocketService
    var socket: ClientSockets.Socket?
    var onlineUsers: seq<string>
    var chatListRefreshes: nat

    ghost predicate Valid()
      reads this, service, service.socket
    {
      service.Valid()
    }

    constructor (service: ClientSockets.SocketService)
      requires service.Valid()
      ensures Valid() && this.service == service && socket == null && onlineUsers == [] && chatListRefreshes == 0
    {
      this.service := service;
      socket := null;
      onlineUsers := [];
      chatListRefreshes := 0;
    }

    /** The authentication effect. Signed out: the service's socket is dropped and none is
        created. Signed in: the access token from `getMe` (`me`) is handed to the service
        and the socket it returns becomes the provider's; a failed `getMe` changes nothing. */
    method AuthEffect(isAuthenticated: bool, me: Result<Option<string>, string>)
      requires Valid()
      modifies this, service, service.socket
      ensures Valid() && onlineUsers == old(onlineUsers) && chatListRefreshes == old(chatListRefreshes)
      ensures !isAuthenticated ==> service.socket == null && socket == old(socket)
      ensures isAuthenticated && me.Ok? ==> socket == service.socket && socket != null && service.token == me.value
      ensures isAuthenticated && me.Err? ==> socket == old(socket) && service.socket == old(service.socket)
    {
      if !isAuthenticated {
        service.Disconnect();
        return;
      }
      if me.Ok? {
        var s := service.Connect(me.value);
        socket := s;
      }
    }

    /** The effect's cleanup: the socket is dropped and the online list emptied. */
    method Cleanup()
      requires Valid()
      modifies this, service, service.socket
      ensures Valid() && socket == null && service.socket == null && onlineUsers == []
      ensures chatListRefreshes == old(chatListRefreshes)
    {
      service.Disconnect();
      socket := null;
      onlineUsers := [];
    }

    /** The presence listeners exist only while the provider holds a socket;
        `presence:list` replaces the whole list with the server's snapshot. */
    method OnPresenceList(users: seq<string>)
      modifies this
      ensures onlineUsers == if old(socket) != null then users else old(onlineUsers)
      ensures socket == old(socket) && chatListRefreshes == old(chatListRefreshes)
    {
      if socket != null {
        onlineUsers := users;
      }
    }

    method OnPresenceOnline(userId: string)
      modifies this
      ensures onlineUsers == if old(socket) != null then OnOnline(old(onlineUsers), userId) else old(onlineUsers)
      ensures socket == old(socket) && chatListRefreshes == old(chatListRefreshes)
    {
      if socket != null {
        onlineUsers := OnOnline(onlineUsers, userId);
      }
    }

    method OnPresenceOffline(userId: string)
      modifies this
      ensures onlineUsers == if old(socket) != null then OnOffline(old(onlineUsers), userId) else old(onlineUsers)
      ensures socket == old(socket) && chatListRefreshes == old(chatListRefreshes)
    {
      if socket != null {
        onlineUsers := OnOffline(onlineUsers, userId);
      }
    }

    /** `message:receive`: the chat list (and with it the unread counts) is refreshed. */
    method OnMessageReceive()
      modifies this
      ensures chatListRefreshes == old(chatListRefreshes) + (if old(socket) != null then 1 else 0)
      ensures socket == old(socket) && onlineUsers == old(onlineUsers)
    {
      if socket != null {
        chatListRefreshes := chatListRefreshes + 1;
      }
    }
  }
}
