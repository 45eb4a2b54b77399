/**
 * The identities and Socket.IO event payloads exchanged between the chat
 * page and the real-time server.
 */
module Protocol {

  /** A user's `_id`, as the client sends it. */
  type UserId = string

  /** A Socket.IO connection id; Socket.IO never hands out an empty one. */
  type SocketId = s: string | s != [] witness "socket"

  /**
   * The `send_message` payload the chat page builds after the message is
   * stored; the server forwards it without looking inside.
   */
  datatype MessageData = MessageData(
    id: string,
    sender: UserId,
    receiver: UserId,
    message: string,
    timestamp: string,
    senderName: string,
    createdAt: string)

  /** The `typing` payload. */
  datatype TypingSignal = TypingSignal(userId: UserId, receiverId: UserId, isTyping: bool)

  /** What the server sends: `update_online_users`, `receive_message`, `user_typing`. */
  datatype Payload =
    | OnlineUsersUpdate(users: seq<UserId>)
    | ReceiveMessage(data: MessageData)
    | UserTyping(userId: UserId, isTyping: bool)

  /** `io.emit` reaches every connection, `io.to(id).emit` one of them. */
  datatype Target = Everyone | ToSocket(socket: SocketId)

  datatype Emit = Emit(target: Target, payload: Payload)
}
