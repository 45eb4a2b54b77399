/**
 * The chat controller's query logic over the stored chats: the history
 * between two users, the conversation list of one user, and deletion by id.
 * The database is the sequence `store` of chat documents in storage order.
 */
module ChatController {
  import opened Wrappers
  import opened Seqs
  import opened ChatStore

  // ---------------------------------------------------------------------
  // getChatHistory

  /** The history query's `$or`: sent from one of the two users to the other. */
  predicate Between(c: Chat, user1: ObjectId, user2: ObjectId) {
    || (c.sender.id == user1 && c.receiver.id == user2)
    || (c.sender.id == user2 && c.receiver.id == user1)
  }

  /** The messages between `user1` and `user2`, in either direction, oldest first. */
  function ChatHistory(store: seq<Chat>, user1: ObjectId, user2: ObjectId): (r: seq<Chat>)
    ensures SortedBy(r, Ascending)
    ensures multiset(r) == multiset(Filter(store, (c: Chat) => Between(c, user1, user2)))
  {
    SortByCreatedAt(Filter(store, (c: Chat) => Between(c, user1, user2)), Ascending)
  }

  /** The history holds a stored chat exactly when it went between the two users. */
  lemma ChatHistoryMembers(store: seq<Chat>, user1: ObjectId, user2: ObjectId, c: Chat)
    ensures c in ChatHistory(store, user1, user2) <==> c in store && Between(c, user1, user2)
  {
    var r := ChatHistory(store, user1, user2);
    assert c in r <==> c in multiset(r);
  }

  /** Swapping the two users selects the same history. */
  lemma ChatHistorySymmetric(store: seq<Chat>, user1: ObjectId, user2: ObjectId)
    ensures ChatHistory(store, user1, user2) == ChatHistory(store, user2, user1)
  {
    FilterSameTest(store, (c: Chat) => Between(c, user1, user2), (c: Chat) => Between(c, user2, user1));
  }

  // ---------------------------------------------------------------------
  // getAllConversations

  /** The conversation query's `$or`: the user sent or received the chat. */
  predicate Involves(c: Chat, userId: ObjectId) {
    c.sender.id == userId || c.receiver.id == userId
  }

  /** The chats of `userId`, newest first: the input of the grouping loop. */
  function UserChats(store: seq<Chat>, userId: ObjectId): (r: seq<Chat>)
    ensures SortedBy(r, Descending)
    ensures multiset(r) == multiset(Filter(store, (c: Chat) => Involves(c, userId)))
  {
    SortByCreatedAt(Filter(store, (c: Chat) => Involves(c, userId)), Descending)
  }

  /** One row of the conversation list. */
  datatype Conversation = Conversation(
    id: ObjectId,
    username: string,
    email: string,
    online: bool,
    lastMessage: string,
    lastMessageTime: int,
    lastMessageSender: ObjectId,
    unreadCount: nat)

  /** The other side of a chat: the receiver when the user sent it, else the sender. */
  function PartnerOf(userId: ObjectId, c: Chat): User {
    if c.sender.id == userId then c.receiver else c.sender
  }

  /** The row a chat gives its partner when it is the first chat met with that partner. */
  function Summary(userId: ObjectId, c: Chat): Conversation {
    var partner := PartnerOf(userId, c);
    Conversation(partner.id, partner.username, partner.email, partner.online,
                 c.message, c.createdAt, c.sender.id, 0)
  }

  /** `conversationMap.has(partnerId)`: the map's keys are its rows' ids. */
  predicate HasPartner(convs: seq<Conversation>, partnerId: ObjectId) {
    exists j :: 0 <= j < |convs| && convs[j].id == partnerId
  }

  /** The position of the first chat with partner `p`; `|chats|` if there is none. */
  function FirstWithPartner(userId: ObjectId, chats: seq<Chat>, p: ObjectId): (i: nat)
    ensures i <= |chats|
    ensures forall k :: 0 <= k < i ==> PartnerOf(userId, chats[k]).id != p
    ensures i < |chats| ==> PartnerOf(userId, chats[i]).id == p
  {
    if chats == [] then 0
    else if PartnerOf(userId, chats[0]).id == p then 0
    else 1 + FirstWithPartner(userId, chats[1..], p)
  }

  /** Every row is the summary of the first chat with its partner. */
  ghost predicate RowsSummariseFirstChat(userId: ObjectId, chats: seq<Chat>, convs: seq<Conversation>) {
    forall j :: 0 <= j < |convs| ==>
      FirstWithPartner(userId, chats, convs[j].id) < |chats|
      && convs[j] == Summary(userId, chats[FirstWithPartner(userId, chats, convs[j].id)])
  }

  /** The rows are in the order in which their partners are first met, so no partner has two. */
  ghost predicate RowsInFirstMetOrder(userId: ObjectId, chats: seq<Chat>, convs: seq<Conversation>) {
    forall j, k :: 0 <= j < k < |convs| ==>
      FirstWithPartner(userId, chats, convs[j].id) < FirstWithPartner(userId, chats, convs[k].id)
  }

  /** Every partner of a chat has a row. */
  ghost predicate EveryPartnerListed(userId: ObjectId, chats: seq<Chat>, convs: seq<Conversation>) {
    forall i :: 0 <= i < |chats| ==> HasPartner(convs, PartnerOf(userId, chats[i]).id)
  }

  /** `convs` is the conversation list of `chats`. */
  ghost predicate IsConversationList(userId: ObjectId, chats: seq<Chat>, convs: seq<Conversation>) {
    && RowsSummariseFirstChat(userId, chats, convs)
    && RowsInFirstMetOrder(userId, chats, convs)
    && EveryPartnerListed(userId, chats, convs)
  }

  /** Appending a chat keeps every partner's first position, and gives a new partner the last one. */
  lemma FirstWithPartnerSnoc(userId: ObjectId, chats: seq<Chat>, c: Chat, p: ObjectId)
    ensures FirstWithPartner(userId, chats + [c], p)
            == if FirstWithPartner(userId, chats, p) < |chats| then FirstWithPartner(userId, chats, p)
               else if PartnerOf(userId, c).id == p then |chats| else |chats| + 1
  {
    var a := FirstWithPartner(userId, chats, p);
    var b := FirstWithPartner(userId, chats + [c], p);
    if a < |chats| {
      assert (chats + [c])[a] == chats[a];
    } else if b == |chats| {
      assert (chats + [c])[b] == c;
    } else {
      assert (chats + [c])[|chats|] == c;
    }
  }

  /** A chat with a partner who already has a row changes nothing in the list. */
  lemma StepKnownPartner(userId: ObjectId, chats: seq<Chat>, c: Chat, convs: seq<Conversation>)
    requires IsConversationList(userId, chats, convs)
    requires HasPartner(convs, PartnerOf(userId, c).id)
    ensures IsConversationList(userId, chats + [c], convs)
  {
    var chats' := chats + [c];
    forall j | 0 <= j < |convs|
      ensures FirstWithPartner(userId, chats', convs[j].id) == FirstWithPartner(userId, chats, convs[j].id)
    {
      FirstWithPartnerSnoc(userId, chats, c, convs[j].id);
    }
    forall j | 0 <= j < |convs|
      ensures FirstWithPartner(userId, chats', convs[j].id) < |chats'|
      ensures convs[j] == Summary(userId, chats'[FirstWithPartner(userId, chats', convs[j].id)])
    {
      assert chats'[FirstWithPartner(userId, chats, convs[j].id)] == chats[FirstWithPartner(userId, chats, convs[j].id)];
    }
    forall i | 0 <= i < |chats'| ensures HasPartner(convs, PartnerOf(userId, chats'[i]).id) {
      if i < |chats| {
        assert chats'[i] == chats[i];
      }
    }
  }

  /** A chat with a new partner leaves the first position of every listed partner where it was. */
  lemma NewPartnerKeepsFirsts(userId: ObjectId, chats: seq<Chat>, c: Chat, convs: seq<Conversation>)
    requires RowsSummariseFirstChat(userId, chats, convs)
    requires EveryPartnerListed(userId, chats, convs)
    requires !HasPartner(convs, PartnerOf(userId, c).id)
    ensures forall j :: 0 <= j < |convs| ==>
              FirstWithPartner(userId, chats + [c], convs[j].id) == FirstWithPartner(userId, chats, convs[j].id) < |chats|
    ensures FirstWithPartner(userId, chats + [c], PartnerOf(userId, c).id) == |chats|
  {
    var p := PartnerOf(userId, c).id;
    assert forall k :: 0 <= k < |chats| ==> PartnerOf(userId, chats[k]).id != p;
    FirstWithPartnerSnoc(userId, chats, c, p);
    forall j | 0 <= j < |convs|
      ensures FirstWithPartner(userId, chats + [c], convs[j].id) == FirstWithPartner(userId, chats, convs[j].id) < |chats|
    {
      FirstWithPartnerSnoc(userId, chats, c, convs[j].id);
    }
  }

  /** The new partner's row summarises the new chat; the other rows still summarise their first chats. */
  lemma NewPartnerRows(userId: ObjectId, chats: seq<Chat>, c: Chat, convs: seq<Conversation>)
    requires RowsSummariseFirstChat(userId, chats, convs)
    requires EveryPartnerListed(userId, chats, convs)
    requires !HasPartner(convs, PartnerOf(userId, c).id)
    ensures RowsSummariseFirstChat(userId, chats + [c], convs + [Summary(userId, c)])
  {
    var chats' := chats + [c];
    var convs' := convs + [Summary(userId, c)];
    NewPartnerKeepsFirsts(userId, chats, c, convs);
    forall j | 0 <= j < |convs'|
      ensures FirstWithPartner(userId, chats', convs'[j].id) < |chats'|
      ensures convs'[j] == Summary(userId, chats'[FirstWithPartner(userId, chats', convs'[j].id)])
    {
      if j < |convs| {
        assert convs'[j] == convs[j];
        assert chats'[FirstWithPartner(userId, chats, convs[j].id)] == chats[FirstWithPartner(userId, chats, convs[j].id)];
      } else {
        assert chats'[|chats|] == c;
      }
    }
  }

  /** The new partner is met after every listed one, so its row goes last. */
  lemma NewPartnerOrder(userId: ObjectId, chats: seq<Chat>, c: Chat, convs: seq<Conversation>)
    requires RowsSummariseFirstChat(userId, chats, convs)
    requires RowsInFirstMetOrder(userId, chats, convs)
    requires EveryPartnerListed(userId, chats, convs)
    requires !HasPartner(convs, PartnerOf(userId, c).id)
    ensures RowsInFirstMetOrder(userId, chats + [c], convs + [Summary(userId, c)])
  {
    var convs' := convs + [Summary(userId, c)];
    NewPartnerKeepsFirsts(userId, chats, c, convs);
    forall j, k | 0 <= j < k < |convs'|
      ensures FirstWithPartner(userId, chats + [c], convs'[j].id) < FirstWithPartner(userId, chats + [c], convs'[k].id)
    {
      assert convs'[j] == convs[j];
      if k < |convs| {
        assert convs'[k] == convs[k];
      }
    }
  }

  /** Every partner of the longer list of chats has a row once the new partner's row is added. */
  lemma NewPartnerListed(userId: ObjectId, chats: seq<Chat>, c: Chat, convs: seq<Conversation>)
    requires EveryPartnerListed(userId, chats, convs)
    ensures EveryPartnerListed(userId, chats + [c], convs + [Summary(userId, c)])
  {
    var chats' := chats + [c];
    var convs' := convs + [Summary(userId, c)];
    forall i | 0 <= i < |chats'| ensures HasPartner(convs', PartnerOf(userId, chats'[i]).id) {
      if i < |chats| {
        assert chats'[i] == chats[i];
        var j :| 0 <= j < |convs| && convs[j].id == PartnerOf(userId, chats[i]).id;
        assert convs'[j] == convs[j];
      } else {
        assert convs'[|convs|].id == PartnerOf(userId, c).id;
      }
    }
  }

  /** A chat with a partner who has no row yet adds that partner's row at the end. */
  lemma StepNewPartner(userId: ObjectId, chats: seq<Chat>, c: Chat, convs: seq<Conversation>)
    requires IsConversationList(userId, chats, convs)
    requires !HasPartner(convs, PartnerOf(userId, c).id)
    ensures IsConversationList(userId, chats + [c], convs + [Summary(userId, c)])
  {
    NewPartnerRows(userId, chats, c, convs);
    NewPartnerOrder(userId, chats, c, convs);
    NewPartnerListed(userId, chats, c, convs);
  }

  /**
   * `getAllConversations(userId)`: walk the user's chats newest first and
   * keep, per partner, a row for the first chat met; return the rows in
   * insertion order.
   */
  method GetAllConversations(store: seq<Chat>, userId: ObjectId) returns (conversations: seq<Conversation>)
    ensures IsConversationList(userId, UserChats(store, userId), conversations)
    ensures forall j :: 0 <= j < |conversations| ==> conversations[j].unreadCount == 0
  {
    var chats := UserChats(store, userId);
    // The keys of `conversationMap` are the ids of its rows.
    var conversationMap: seq<Conversation> := [];
    var i := 0;
    while i < |chats|
      invariant i <= |chats|
      invariant IsConversationList(userId, chats[..i], conversationMap)
    {
      var chat := chats[i];
      var partnerId := PartnerOf(userId, chat).id;
      assert chats[..i + 1] == chats[..i] + [chat];
      if !HasPartner(conversationMap, partnerId) {
        StepNewPartner(userId, chats[..i], chat, conversationMap);
        conversationMap := conversationMap + [Summary(userId, chat)];
      } else {
        StepKnownPartner(userId, chats[..i], chat, conversationMap);
      }
      i := i + 1;
    }
    assert chats[..i] == chats;
    conversations := conversationMap;
  }

  /** No partner has two rows. */
  lemma ConversationPartnersDistinct(userId: ObjectId, chats: seq<Chat>, convs: seq<Conversation>)
    requires IsConversationList(userId, chats, convs)
    ensures forall j, k :: 0 <= j < k < |convs| ==> convs[j].id != convs[k].id
  {
  }

  /** In a newest-first list, the first chat with a partner is no older than any later chat with them. */
  lemma FirstWithPartnerIsNewest(userId: ObjectId, chats: seq<Chat>, k: nat)
    requires SortedBy(chats, Descending)
    requires k < |chats|
    ensures var i := FirstWithPartner(userId, chats, PartnerOf(userId, chats[k]).id);
            i <= k && chats[k].createdAt <= chats[i].createdAt
  {
    var i := FirstWithPartner(userId, chats, PartnerOf(userId, chats[k]).id);
    if i < k {
      assert InOrder(chats[i], chats[k], Descending);
    }
  }

  /**
   * Since the chats come newest first, each row's last message is that
   * partner's newest: no chat of the user with that partner is later.
   */
  lemma LastMessageIsNewest(store: seq<Chat>, userId: ObjectId, convs: seq<Conversation>, j: nat, c: Chat)
    requires IsConversationList(userId, UserChats(store, userId), convs)
    requires j < |convs|
    requires c in store && Involves(c, userId) && PartnerOf(userId, c).id == convs[j].id
    ensures c.createdAt <= convs[j].lastMessageTime
  {
    var chats := UserChats(store, userId);
    var f := Filter(store, (x: Chat) => Involves(x, userId));
    assert c in f;
    assert multiset(chats) == multiset(f);
    assert c in multiset(chats);
    var k :| 0 <= k < |chats| && chats[k] == c;
    FirstWithPartnerIsNewest(userId, chats, k);
    assert RowsSummariseFirstChat(userId, chats, convs);
  }

  // ---------------------------------------------------------------------
  // deleteMessage

  /** `findByIdAndDelete` found a document, or found none (404). */
  datatype DeleteReply = Deleted | NotFound

  datatype DeleteResult = DeleteResult(reply: DeleteReply, store: seq<Chat>)

  /** The HTTP status and message the controller answers with. */
  function DeleteResponse(reply: DeleteReply): (nat, string) {
    match reply
    case Deleted => (200, "Message deleted successfully")
    case NotFound => (404, "Message not found")
  }

  /** The position of the first chat with id `messageId`; `|store|` if there is none. */
  function FindById(store: seq<Chat>, messageId: ObjectId): (i: nat)
    ensures i <= |store|
    ensures forall k :: 0 <= k < i ==> store[k].id != messageId
    ensures i < |store| ==> store[i].id == messageId
  {
    if store == [] then 0
    else if store[0].id == messageId then 0
    else 1 + FindById(store[1..], messageId)
  }

  ghost predicate UniqueIds(store: seq<Chat>) {
    forall i, j :: 0 <= i < j < |store| ==> store[i].id != store[j].id
  }

  /** `deleteMessage(messageId)`. */
  function DeleteMessage(store: seq<Chat>, messageId: ObjectId): (r: DeleteResult)
    ensures r.reply == NotFound <==> forall k :: 0 <= k < |store| ==> store[k].id != messageId
    ensures r.reply == NotFound ==> r.store == store
    ensures r.reply == Deleted ==>
              && |r.store| == |store| - 1
              && exists k :: 0 <= k < |store| && store[k].id == messageId
                             && multiset(r.store) + multiset{store[k]} == multiset(store)
  {
    var i := FindById(store, messageId);
    if i == |store| then DeleteResult(NotFound, store)
    else
      assert store == store[..i] + [store[i]] + store[i + 1..];
      DeleteResult(Deleted, store[..i] + store[i + 1..])
  }

  /** The controller answers 404 exactly when no chat has the id, and 200 otherwise. */
  lemma DeleteMessageStatus(store: seq<Chat>, messageId: ObjectId)
    ensures var (status, _) := DeleteResponse(DeleteMessage(store, messageId).reply);
            && (status == 404 <==> forall k :: 0 <= k < |store| ==> store[k].id != messageId)
            && (status == 200 <==> exists k :: 0 <= k < |store| && store[k].id == messageId)
  {
  }

  /** With unique ids, no chat with the deleted id is left, and every other chat is kept. */
  lemma DeleteMessageRemovesId(store: seq<Chat>, messageId: ObjectId)
    requires UniqueIds(store)
    ensures forall c :: c in DeleteMessage(store, messageId).store <==> c in store && c.id != messageId
  {
    var i := FindById(store, messageId);
    if i < |store| {
      var r := store[..i] + store[i + 1..];
      forall c ensures c in r <==> c in store && c.id != messageId {
        if c in r {
          var k :| 0 <= k < |r| && r[k] == c;
          var k' := if k < i then k else k + 1;
          assert store[k'] == c && k' != i;
        }
        if c in store && c.id != messageId {
          var k :| 0 <= k < |store| && store[k] == c;
          assert k != i;
          assert r[if k < i then k else k - 1] == c;
        }
      }
    }
  }
}
