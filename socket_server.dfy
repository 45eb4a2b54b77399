/**
 * The real-time block of the chat server: the `onlineUsers` registry and
 * the handlers of a connection's `user_connected`, `send_message`, `typing`
 * and `disconnect` events. Each handler is one atomic step (Node runs them
 * one at a time) that changes the registry and returns the events it emits,
 * in emission order.
 */
module SocketServer {
  import opened Wrappers
  import opened Protocol
  import opened OnlineMap

  /** `io.emit('update_online_users', Array.from(onlineUsers.keys()))`. */
  function OnlineUsersBroadcast(es: seq<Entry>): Emit {
    Emit(Everyone, OnlineUsersUpdate(Keys(es)))
  }

  /**
   * `send_message`: the payload, unchanged, to the receiver's socket if the
   * receiver is registered, and nowhere otherwise.
   */
  function RouteMessage(es: seq<Entry>, data: MessageData): (out: seq<Emit>)
    ensures |out| <= 1
    ensures forall e :: e in out ==> e.target.ToSocket? && e.payload == ReceiveMessage(data)
  {
    match Get(es, data.receiver)
    case None => []
    case Some(sid) => [Emit(ToSocket(sid), ReceiveMessage(data))]
  }

  /**
   * `typing`: `{userId, isTyping}`, without the receiver id, to the
   * receiver's socket if the receiver is registered, and nowhere otherwise.
   */
  function RelayTyping(es: seq<Entry>, signal: TypingSignal): (out: seq<Emit>)
    ensures |out| <= 1
    ensures forall e :: e in out ==> e.target.ToSocket? && e.payload == UserTyping(signal.userId, signal.isTyping)
  {
    match Get(es, signal.receiverId)
    case None => []
    case Some(sid) => [Emit(ToSocket(sid), UserTyping(signal.userId, signal.isTyping))]
  }

  /** A message is delivered to socket `sid` exactly when the registry binds its receiver to `sid`. */
  lemma RouteMessageTarget(es: seq<Entry>, data: MessageData, sid: SocketId)
    requires UniqueKeys(es)
    ensures RouteMessage(es, data) == [Emit(ToSocket(sid), ReceiveMessage(data))] <==> Entry(data.receiver, sid) in es
  {
    GetFindsEntry(es, data.receiver, sid);
  }

  /** A message to a receiver who is not registered is dropped, and only then. */
  lemma RouteMessageDropped(es: seq<Entry>, data: MessageData)
    ensures RouteMessage(es, data) == [] <==> data.receiver !in Keys(es)
  {
  }

  /**
   * Nothing stops a message from reaching the sender's own socket: a
   * message addressed to oneself, or to another user announced on the same
   * connection, is delivered to that connection.
   */
  lemma RouteMessageEchoes(es: seq<Entry>, data: MessageData, sid: SocketId)
    requires UniqueKeys(es)
    requires Entry(data.sender, sid) in es && Entry(data.receiver, sid) in es
    ensures RouteMessage(es, data) == [Emit(ToSocket(sid), ReceiveMessage(data))]
  {
    RouteMessageTarget(es, data, sid);
  }

  /** A typing signal reaches socket `sid` exactly when the registry binds its receiver to `sid`. */
  lemma RelayTypingTarget(es: seq<Entry>, signal: TypingSignal, sid: SocketId)
    requires UniqueKeys(es)
    ensures RelayTyping(es, signal) == [Emit(ToSocket(sid), UserTyping(signal.userId, signal.isTyping))]
            <==> Entry(signal.receiverId, sid) in es
  {
    GetFindsEntry(es, signal.receiverId, sid);
  }

  /** A typing signal for a receiver who is not registered is dropped, and only then. */
  lemma RelayTypingDropped(es: seq<Entry>, signal: TypingSignal)
    ensures RelayTyping(es, signal) == [] <==> signal.receiverId !in Keys(es)
  {
  }

  /** The server process: the registry shared by every connection's handlers. */
  class Server {
    var onlineUsers: seq<Entry>

    ghost predicate Valid()
      reads this
    {
      UniqueKeys(onlineUsers)
    }

    constructor ()
      ensures Valid() && onlineUsers == []
    {
      onlineUsers := [];
    }

    /**
     * `user_connected(userId)` on socket `socketId`: bind the user to this
     * socket, replacing an earlier binding in place (last write wins), then
     * broadcast the online list.
     */
    method UserConnected(socketId: SocketId, userId: UserId) returns (out: seq<Emit>)
      requires Valid()
      modifies this
      ensures Valid()
      ensures onlineUsers == Put(old(onlineUsers), userId, socketId)
      ensures Get(onlineUsers, userId) == Some(socketId)
      ensures forall v :: v != userId ==> Get(onlineUsers, v) == Get(old(onlineUsers), v)
      ensures Keys(onlineUsers) == if userId in Keys(old(onlineUsers)) then Keys(old(onlineUsers))
                                   else Keys(old(onlineUsers)) + [userId]
      ensures out == [OnlineUsersBroadcast(onlineUsers)]
      ensures NoDuplicates(out[0].payload.users)
    {
      ghost var before := onlineUsers;
      PutKeepsKeysUnique(onlineUsers, userId, socketId);
      PutKeys(onlineUsers, userId, socketId);
      forall v | v != userId ensures Get(Put(before, userId, socketId), v) == Get(before, v) {
        PutGet(before, userId, socketId, v);
      }
      PutGet(before, userId, socketId, userId);
      onlineUsers := Put(onlineUsers, userId, socketId);
      out := [OnlineUsersBroadcast(onlineUsers)];
    }

    /** `send_message(data)`: forward to the receiver if online; the registry is not touched. */
    method SendMessage(data: MessageData) returns (out: seq<Emit>)
      requires Valid()
      ensures out == RouteMessage(onlineUsers, data)
    {
      var receiverSocketId := Get(onlineUsers, data.receiver);
      out := [];
      if receiverSocketId.Some? {
        out := [Emit(ToSocket(receiverSocketId.value), ReceiveMessage(data))];
      }
    }

    /** `typing(signal)`: forward `{userId, isTyping}` to the receiver if online; the registry is not touched. */
    method Typing(signal: TypingSignal) returns (out: seq<Emit>)
      requires Valid()
      ensures out == RelayTyping(onlineUsers, signal)
    {
      var receiverSocketId := Get(onlineUsers, signal.receiverId);
      out := [];
      if receiverSocketId.Some? {
        out := [Emit(ToSocket(receiverSocketId.value), UserTyping(signal.userId, signal.isTyping))];
      }
    }

    /**
     * `disconnect` of socket `socketId`: scan the entries in order, delete the
     * first one on this socket and stop; then broadcast the online list,
     * whether or not an entry was removed.
     */
    method Disconnect(socketId: SocketId) returns (out: seq<Emit>)
      requires Valid()
      modifies this
      ensures Valid()
      ensures onlineUsers == RemoveFirstOnSocket(old(onlineUsers), socketId)
      ensures var i := FirstOnSocket(old(onlineUsers), socketId);
              i < |old(onlineUsers)| ==> old(onlineUsers)[i].user !in Keys(onlineUsers)
      ensures out == [OnlineUsersBroadcast(onlineUsers)]
      ensures NoDuplicates(out[0].payload.users)
    {
      ghost var es := onlineUsers;
      ghost var n := FirstOnSocket(es, socketId);
      var i := 0;
      while i < |onlineUsers|
        invariant i <= n
        invariant onlineUsers == es
      {
        if onlineUsers[i].socket == socketId {
          assert i == n;
          DeleteAt(onlineUsers, i);
          onlineUsers := Delete(onlineUsers, onlineUsers[i].user);
          break;
        }
        i := i + 1;
      }
      RemoveFirstOnSocketAt(es, socketId);
      assert onlineUsers == RemoveFirstOnSocket(es, socketId);
      RemoveFirstOnSocketKeys(es, socketId);
      assert UniqueKeys(onlineUsers);
      out := [OnlineUsersBroadcast(onlineUsers)];
    }
  }

  /** A first user comes online, and the broadcast lists only that user. */
  method OneOnline() returns (server: Server, online: seq<Emit>)
    ensures fresh(server) && server.Valid()
    ensures server.onlineUsers == [Entry("A", "socket-a")]
    ensures online == [Emit(Everyone, OnlineUsersUpdate(["A"]))]
  {
    server := new Server();
    PutAppendsNew([], "A", "socket-a");
    online := server.UserConnected("socket-a", "A");
    assert Keys(server.onlineUsers) == ["A"];
  }

  /** A second user comes online after the first, and the broadcast lists both, in that order. */
  method TwoOnline() returns (server: Server, online: seq<Emit>)
    ensures fresh(server) && server.Valid()
    ensures server.onlineUsers == [Entry("A", "socket-a"), Entry("B", "socket-b")]
    ensures online == [Emit(Everyone, OnlineUsersUpdate(["A", "B"]))]
  {
    server, online := OneOnline();
    assert "B" !in Keys(server.onlineUsers);
    PutAppendsNew(server.onlineUsers, "B", "socket-b");
    online := server.UserConnected("socket-b", "B");
    assert Keys(server.onlineUsers) == ["A", "B"];
  }

  /** A message between two online users reaches the receiver's socket. */
  method DeliveryScenario() {
    var server, joined := TwoOnline();
    var hi := MessageData("m1", "A", "B", "hi", "t1", "Ann", "c1");
    var delivered := server.SendMessage(hi);
    assert delivered == [Emit(ToSocket("socket-b"), ReceiveMessage(hi))];
  }

  /** Once the receiver leaves, the online list shrinks and a message finds nobody. */
  method LeaveScenario() {
    var server, joined := TwoOnline();
    assert FirstOnSocket(server.onlineUsers, "socket-b") == 1;
    var online := server.Disconnect("socket-b");
    assert server.onlineUsers == [Entry("A", "socket-a")];
    assert Keys(server.onlineUsers) == ["A"];
    assert online == [Emit(Everyone, OnlineUsersUpdate(["A"]))];
    var again := MessageData("m2", "A", "B", "still there?", "t2", "Ann", "c2");
    var delivered := server.SendMessage(again);
    assert delivered == [];
  }
}
