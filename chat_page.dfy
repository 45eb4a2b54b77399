/**
 * The chat page's state and its transitions: an incoming message, a typing
 * update, switching conversation (with draft save and restore) and sending
 * a message. HTTP replies are parameters (`None` for a failed request), and
 * the socket events the page emits are returned.
 */
module ChatPage {
  import opened Wrappers
  import opened Protocol
  import opened JsText
  import opened OnlineMap
  import opened SocketServer

  /** The `receive_message` guard: from someone else, to the current user. */
  predicate AcceptsIncoming(me: UserId, m: MessageData) {
    m.sender != me && m.receiver == me
  }

  /**
   * Before switching, a message with at least one non-whitespace character is
   * kept, untrimmed, as the open conversation's draft; no other draft changes.
   */
  function SaveDraft(drafts: map<UserId, string>, selected: Option<UserId>, message: string): (r: map<UserId, string>)
    ensures forall k :: k in r <==>
      k in drafts || (selected == Some(k) && exists m :: 0 <= m < |message| && !IsWhitespace(message[m]))
    ensures selected.Some? && (exists m :: 0 <= m < |message| && !IsWhitespace(message[m])) ==>
      r[selected.value] == message
    ensures forall k :: k in drafts && !(selected == Some(k) && exists m :: 0 <= m < |message| && !IsWhitespace(message[m])) ==>
      r[k] == drafts[k]
  {
    TrimEmptyIffBlank(message);
    if selected.Some? && Trim(message) != [] then drafts[selected.value := message] else drafts
  }

  /** `draftMessages[u._id] || ''`. */
  function RestoreDraft(drafts: map<UserId, string>, u: UserId): string {
    if u in drafts && drafts[u] != [] then drafts[u] else []
  }

  /** `res.data.chat` of a stored message. */
  datatype SavedChat = SavedChat(id: string, createdAt: string)

  /** The body of `POST /api/chat/send`. */
  datatype SendRequest = SendRequest(sender: UserId, receiver: UserId, message: string)

  /** The socket events the page emits. */
  datatype ClientEmit = SendMessageEmit(data: MessageData) | TypingEmit(signal: TypingSignal)

  /** What `sendMessage` asked of the outside: the request it made, if any, and the events it emitted. */
  datatype SendOutcome = SendOutcome(request: Option<SendRequest>, emits: seq<ClientEmit>)

  class Page {
    /** `user._id` and `user.username` of the logged-in user. */
    const me: UserId
    const myName: string

    /** The `_id` of `selectedUser`, or `None` while no conversation is open. */
    var selectedUser: Option<UserId>
    var chatHistory: seq<MessageData>
    var message: string
    var typingUsers: map<UserId, bool>
    var draftMessages: map<UserId, string>

    constructor (me: UserId, myName: string)
      ensures this.me == me && this.myName == myName
      ensures selectedUser == None && chatHistory == [] && message == []
      ensures typingUsers == map[] && draftMessages == map[]
    {
      this.me := me;
      this.myName := myName;
      selectedUser := None;
      chatHistory := [];
      message := [];
      typingUsers := map[];
      draftMessages := map[];
    }

    /** The `receive_message` listener: append a message from someone else to me; ignore the rest. */
    method ReceiveMessage(m: MessageData)
      modifies this
      ensures chatHistory == if AcceptsIncoming(me, m) then old(chatHistory) + [m] else old(chatHistory)
      ensures old(chatHistory) <= chatHistory
      ensures selectedUser == old(selectedUser) && message == old(message)
      ensures typingUsers == old(typingUsers) && draftMessages == old(draftMessages)
    {
      if m.sender != me && m.receiver == me {
        chatHistory := chatHistory + [m];
      }
    }

    /** The `user_typing` listener: record the sender's flag, leave every other entry. */
    method UserTyping(userId: UserId, typing: bool)
      modifies this
      ensures typingUsers == old(typingUsers)[userId := typing]
      ensures userId in typingUsers && typingUsers[userId] == typing
      ensures forall k :: k != userId ==> (k in typingUsers <==> k in old(typingUsers))
      ensures forall k :: k != userId && k in typingUsers ==> typingUsers[k] == old(typingUsers)[k]
      ensures selectedUser == old(selectedUser) && message == old(message)
      ensures chatHistory == old(chatHistory) && draftMessages == old(draftMessages)
    {
      typingUsers := typingUsers[userId := typing];
    }

    /**
     * `fetchChatHistory(u)`: save the draft of the open conversation, select
     * `u`, and when the history request succeeds show that history and the
     * draft `u` had when the call began (the value the handler saw).
     */
    method FetchChatHistory(u: UserId, reply: Option<seq<MessageData>>)
      modifies this
      ensures me == [] || u == [] ==>
                && selectedUser == old(selectedUser) && chatHistory == old(chatHistory) && message == old(message)
                && draftMessages == old(draftMessages)
      ensures me != [] && u != [] ==>
                && draftMessages == SaveDraft(old(draftMessages), old(selectedUser), old(message))
                && selectedUser == Some(u)
                && chatHistory == (if reply.Some? then reply.value else old(chatHistory))
                && message == (if reply.Some? then RestoreDraft(old(draftMessages), u) else old(message))
      ensures typingUsers == old(typingUsers)
    {
      if me == [] || u == [] {
        return;
      }
      var drafts := draftMessages;
      if selectedUser.Some? && Trim(message) != [] {
        draftMessages := draftMessages[selectedUser.value := message];
      }
      selectedUser := Some(u);
      if reply.Some? {
        chatHistory := reply.value;
        message := RestoreDraft(drafts, u);
      }
    }

    /**
     * `sendMessage`: nothing for a blank message; otherwise clear the input
     * and the open conversation's draft, send the trimmed text, and on
     * success append it locally and emit it with a "stopped typing" signal.
     * On failure the trimmed text goes back into the input; with no open
     * conversation building the request fails the same way.
     */
    method SendMessage(reply: Option<SavedChat>, now: string) returns (out: SendOutcome)
      modifies this
      ensures Trim(old(message)) == [] ==>
                && out == SendOutcome(None, [])
                && message == old(message) && draftMessages == old(draftMessages) && chatHistory == old(chatHistory)
      ensures Trim(old(message)) != [] ==>
                && draftMessages == (if selectedUser.Some? then old(draftMessages) - {selectedUser.value} else old(draftMessages))
                && out.request == (if selectedUser.Some? then Some(SendRequest(me, selectedUser.value, Trim(old(message)))) else None)
                && message == (if selectedUser.Some? && reply.Some? then [] else Trim(old(message)))
                && chatHistory == (if selectedUser.Some? && reply.Some?
                                   then old(chatHistory) + [MessageData(reply.value.id, me, selectedUser.value, Trim(old(message)),
                                                                        now, myName, reply.value.createdAt)]
                                   else old(chatHistory))
                && out.emits == (if selectedUser.Some? && reply.Some?
                                 then [SendMessageEmit(chatHistory[|chatHistory| - 1]),
                                       TypingEmit(TypingSignal(me, selectedUser.value, false))]
                                 else [])
      ensures selectedUser == old(selectedUser) && typingUsers == old(typingUsers)
    {
      if Trim(message) == [] {
        return SendOutcome(None, []);
      }
      var messageText := Trim(message);
      message := [];
      if selectedUser.Some? {
        draftMessages := draftMessages - {selectedUser.value};
      }
      if selectedUser.None? {
        message := messageText;
        return SendOutcome(None, []);
      }
      var receiver := selectedUser.value;
      var request := SendRequest(me, receiver, messageText);
      if reply.None? {
        message := messageText;
        return SendOutcome(Some(request), []);
      }
      var messageData := MessageData(reply.value.id, me, receiver, messageText, now, myName, reply.value.createdAt);
      chatHistory := chatHistory + [messageData];
      out := SendOutcome(Some(request), [SendMessageEmit(messageData), TypingEmit(TypingSignal(me, receiver, false))]);
    }
  }

  /**
   * A message the page sent to a receiver who is online reaches the
   * receiver's socket, and the receiver's page shows it, unless it was sent
   * to oneself (the sender's page already shows its own copy).
   */
  lemma SentMessageShownToReceiver(es: seq<Entry>, data: MessageData, sid: SocketId)
    requires UniqueKeys(es)
    requires Entry(data.receiver, sid) in es
    ensures RouteMessage(es, data) == [Emit(ToSocket(sid), ReceiveMessage(data))]
    ensures AcceptsIncoming(data.receiver, data) <==> data.sender != data.receiver
  {
    RouteMessageTarget(es, data, sid);
  }
}
