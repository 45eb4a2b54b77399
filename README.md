# Chat-Application: the real-time registry, conversation queries and chat page state in Dafny

This project models three pieces of sequential logic from a small Socket.IO/Express/React chat application and proves properties of them.

- **The real-time server** (`backend/app.js`). The `onlineUsers` registry is a JavaScript `Map` from user id to socket id. The model keeps it as the sequence of its entries in insertion order, with unique keys. That order matters twice: the disconnect scan removes the first entry on the closing socket, and the online list is broadcast in key order. Each connection handler is a method of `SocketServer.Server`. It changes the registry and returns the events it emits, each with a target (everyone or one socket) and a payload. The handlers are `user_connected`, `send_message`, `typing` and `disconnect`.
- **The chat controller's queries** (`backend/controllers/chat.controller.js`). The database is a sequence of chat documents. The chat history and the conversation query become filters followed by a sort on `createdAt`. `getAllConversations` groups the user's chats, newest first, by conversation partner; it is a method with the source's loop, proved against a declarative description of the conversation list. `deleteMessage` finds by id and reports not-found.
- **The chat page** (`frontend/chat-application/src/Pages/Chat.jsx`). Its state fields (`chatHistory`, `typingUsers`, `draftMessages`, `message`, `selectedUser`) are the fields of `ChatPage.Page`. There is one transition method per handler: the incoming-message filter, the typing map update, switching conversation (draft save and restore), and sending. HTTP replies are parameters, `None` for a failed request. The pure helpers are in `ChatHelpers`: `truncateMessage`, `generateAvatar`, the username search and the self-exclusion filter. The JavaScript string operations they use (`trim`, `includes`, `split`, `toLowerCase`, `charCodeAt`) are in `JsText`.

Modules, by file: `wrappers.dfy` (Option), `seqs.dfy` (`filter`), `js_text.dfy`, `protocol.dfy` (ids and event payloads), `online_map.dfy` (the registry `Map`), `socket_server.dfy` (the handlers), `chat_store.dfy` (the schemas' records and the sort), `chat_controller.dfy`, `chat_helpers.dfy`, `chat_page.dfy`.

## Where the code departs from the intended presence and routing behaviour

The model follows the code in each case.

- `disconnect` broadcasts the online list every time (app.js:78), even when no entry was removed. A presence service would broadcast only after a removal, so that a second disconnect of an identity already gone causes no repeated broadcast. `SocketServer.Server.Disconnect` states the unconditional broadcast.
- `disconnect` stops after the first entry on the closing socket (app.js:74). If one connection announced two user ids, the second stays registered against a closed socket, although an entry should never outlive its connection. `OnlineMap.DisconnectLeavesLaterEntries` proves that the later entry survives.
- `send_message` can deliver a message back to the sender's own connection (app.js:55-57), although a router is expected never to echo. This happens when `data.receiver` is the sender, or when the receiver was announced on the sender's connection. `SocketServer.RouteMessageEchoes` proves the delivery; `ChatPage.SentMessageShownToReceiver` shows that the page then drops a self-addressed copy.
- A `send_message` event without a payload throws at `data.receiver` (app.js:55), and a `typing` event without one throws while its argument is destructured (app.js:62). A robust router would discard such an event. The model's payloads are typed records, so it cannot express a missing payload (see "Left out").
- `user_connected` overwrites an earlier binding silently and does not return the previous socket (app.js:47). With a user open in two tabs, `a` then `b`, closing tab `b` removes the user's only entry (app.js:70-74), so the user is reported offline while tab `a` is still connected: `OnlineMap.OverwrittenTabGoesOffline` proves that after `set(U, b)` for an online user `U` and a fresh socket `b`, the disconnect of `b` leaves `U` without an entry. There is no locking; handlers run one at a time on Node's event loop, so each is modelled as one atomic step.

## Behaviour worth noting

- `fetchChatHistory` reads `draftMessages[u._id]` from the state it saw when the call began (Chat.jsx:164), not from the update it queued at lines 149-152. So reopening the conversation that is already open replaces the typed text with that conversation's older draft, or with `''`. The text itself is still kept in `draftMessages`. `ChatPage.Page.FetchChatHistory` states this with `RestoreDraft(old(draftMessages), u)`.
- When `sendMessage` runs with no conversation open, reading `selectedUser._id` inside the `try` block throws. The `catch` block then puts the trimmed text back into the input and no request is made. `ChatPage.Page.SendMessage` states this branch.
- `generateAvatar('')` computes `colors[NaN]`, which is `undefined`. `ChatHelpers.GenerateAvatar` returns no colour for an empty username.

## Model

| member | source | states |
|---|---|---|
| `OnlineMap.Keys` | backend/app.js:49 | `Array.from(onlineUsers.keys())`: one key per entry, the key at position `i` is the user of entry `i` |
| `OnlineMap.Get` | backend/app.js:55 | `map.get(u)` finds a socket exactly when `u` is a key, and the found socket is bound to `u` in the map |
| `OnlineMap.GetFindsEntry` | backend/app.js:63 | with unique keys, `get(u)` is `s` exactly when the entry `(u, s)` is in the map |
| `OnlineMap.Put` | backend/app.js:47 | `set` grows the map by one entry for a new key and keeps its size for an existing key |
| `OnlineMap.PutKeys` | backend/app.js:47-49 | after `set(u, s)` the key list is unchanged when `u` was a key, or the old list with `u` appended; no key moves |
| `OnlineMap.PutAppendsNew` | backend/app.js:47 | `set` with a new key appends its entry at the end |
| `OnlineMap.PutKeepsOthers` | backend/app.js:47 | `set` leaves every entry of another key at its position, unchanged |
| `OnlineMap.PutGet` | backend/app.js:47 | after `set(u, s)`, `get(u)` is `s` and `get(v)` for every other key is as before (last write wins) |
| `OnlineMap.PutKeepsKeysUnique` | backend/app.js:47 | `set` never duplicates a key |
| `OnlineMap.Delete` | backend/app.js:72 | `delete(u)` removes one entry when `u` is a key and leaves the map unchanged otherwise |
| `OnlineMap.DeleteAt` | backend/app.js:72 | with unique keys, `delete` of the key of the entry at `i` removes exactly that entry and keeps the others in order |
| `OnlineMap.FirstOnSocket` | backend/app.js:70-71 | the scan's stopping point: no earlier entry holds the socket, and the entry there does (or the scan ran off the end) |
| `OnlineMap.RemoveFirstOnSocket` | backend/app.js:70-76 | (definition) the registry without its first entry on the socket; `RemoveFirstOnSocketAt` and the lemmas below characterise it, and every disconnect contract is stated in terms of it |
| `OnlineMap.RemoveFirstOnSocketAt` | backend/app.js:70-76 | the disconnect removes the first entry on the socket, in iteration order, keeping all others in order; with no such entry the map is unchanged |
| `OnlineMap.RemoveFirstOnSocketSize` | backend/app.js:70-76 | the disconnect shrinks the map by one exactly when some entry held the socket, otherwise by nothing |
| `OnlineMap.KeysRemoveAt` | backend/app.js:78 | after removing the entry at `i`, the broadcast key list is the old list without its `i`-th key |
| `OnlineMap.RemoveAtKeepsKeysUnique` | backend/app.js:72 | removing one entry keeps the keys unique |
| `OnlineMap.RemoveAtDropsUser` | backend/app.js:72 | removing the entry at `i` removes its user from the key list |
| `OnlineMap.RemoveFirstOnSocketKeys` | backend/app.js:69-78 | after a disconnect the keys stay unique, the removed user is not among them, and the others keep their relative order |
| `OnlineMap.DisconnectLeavesLaterEntries` | backend/app.js:70-76 | a later entry on the same socket survives the disconnect |
| `OnlineMap.OverwrittenTabGoesOffline` | backend/app.js:47-76 | when an online user announces a second, new connection and that connection closes, the user is no longer a key although the first connection is open |
| `SocketServer.OnlineUsersBroadcast` | backend/app.js:49 | (definition) the `update_online_users` event to everyone, carrying the key list in iteration order; the same event is emitted at line 78 |
| `SocketServer.RouteMessage` | backend/app.js:52-60 | `send_message` emits at most one event, to a single socket, and its payload is the received data unchanged |
| `SocketServer.RouteMessageTarget` | backend/app.js:55-58 | the message goes to socket `sid` exactly when the map binds the receiver to `sid` |
| `SocketServer.RouteMessageDropped` | backend/app.js:55-58 | nothing is emitted exactly when the receiver is not a key |
| `SocketServer.RouteMessageEchoes` | backend/app.js:55-57 | when sender and receiver are bound to the same socket (one user, or two users on one connection), the message is delivered to that socket: there is no echo suppression |
| `SocketServer.RelayTyping` | backend/app.js:62-67 | `typing` emits at most one event, to a single socket, carrying only `{userId, isTyping}` |
| `SocketServer.RelayTypingTarget` | backend/app.js:63-65 | the signal goes to socket `sid` exactly when the map binds `receiverId` to `sid` |
| `SocketServer.RelayTypingDropped` | backend/app.js:63-65 | nothing is emitted exactly when `receiverId` is not a key |
| `SocketServer.Server.constructor` | backend/app.js:40 | the registry starts empty |
| `SocketServer.Server.UserConnected` | backend/app.js:46-50 | the user is bound to this socket, every other user's binding is unchanged, the key list gains the user at the end only if new, and the broadcast is the key list, without duplicates |
| `SocketServer.Server.SendMessage` | backend/app.js:52-60 | emits exactly `RouteMessage` of the current map, which it does not change |
| `SocketServer.Server.Typing` | backend/app.js:62-67 | emits exactly `RelayTyping` of the current map, which it does not change |
| `SocketServer.Server.Disconnect` | backend/app.js:69-79 | the scan loop leaves the map with its first entry on the socket removed; that user is then offline; the online list is broadcast every time, without duplicates |
| `SocketServer.OneOnline` | backend/app.js:46-49 | after one `user_connected` the registry holds just that user, and the returned broadcast is `update_online_users` with only that user |
| `SocketServer.TwoOnline` | backend/app.js:46-49 | after a second user connects the registry holds both users in connection order, and the returned broadcast lists both, in that order |
| `SocketServer.DeliveryScenario` | backend/app.js:52-58 | (no contract; its body asserts) with both users online, a message to the second is emitted to that user's socket alone |
| `SocketServer.LeaveScenario` | backend/app.js:55-78 | (no contract; its body asserts) once the second user's socket closes, the online list is only the first user, and a message to the second is dropped |
| `ChatStore.Insert` | backend/controllers/chat.controller.js:37 | inserting keeps every chat: the result is the input plus the new chat, as a multiset |
| `ChatStore.InsertSorted` | backend/controllers/chat.controller.js:37 | inserting into a list sorted by `createdAt` keeps it sorted |
| `ChatStore.SortByCreatedAt` | backend/controllers/chat.controller.js:60 | the query's sort returns a permutation of its input, ordered by `createdAt` in the requested direction |
| `ChatController.Between` | backend/controllers/chat.controller.js:33-36 | (definition) the history query's `$or`: sent by one of the two users to the other |
| `ChatController.ChatHistory` | backend/controllers/chat.controller.js:32-37 | the history is oldest first and holds exactly the chats between the two users, in both directions, with their multiplicities |
| `ChatController.ChatHistoryMembers` | backend/controllers/chat.controller.js:32-36 | a stored chat is in the history exactly when it went from one of the two users to the other |
| `ChatController.ChatHistorySymmetric` | backend/controllers/chat.controller.js:33-36 | swapping the two users gives the same history |
| `ChatController.Involves` | backend/controllers/chat.controller.js:57 | (definition) the conversation query's `$or`: the user sent or received the chat |
| `ChatController.UserChats` | backend/controllers/chat.controller.js:56-60 | the conversation query gives every chat the user sent or received, newest first |
| `ChatController.PartnerOf` | backend/controllers/chat.controller.js:68-72 | (definition) the receiver when the user sent the chat, otherwise the sender |
| `ChatController.Summary` | backend/controllers/chat.controller.js:73-82 | (definition) the row built from a chat: the partner's id, username, email and online flag, the chat's message, time and sender, and `unreadCount` 0 |
| `ChatController.HasPartner` | backend/controllers/chat.controller.js:71 | (definition) `conversationMap.has(partnerId)`: some row has that partner's id |
| `ChatController.FirstWithPartner` | backend/controllers/chat.controller.js:68-71 | the position of the first chat with a partner: none before it has that partner |
| `ChatController.FirstWithPartnerSnoc` | backend/controllers/chat.controller.js:67 | one more chat leaves every partner's first position unchanged and gives a new partner the last position |
| `ChatController.StepKnownPartner` | backend/controllers/chat.controller.js:71 | a chat with a partner who already has a row leaves a valid conversation list unchanged |
| `ChatController.NewPartnerKeepsFirsts` | backend/controllers/chat.controller.js:67-71 | a chat with a partner who has no row leaves every listed partner's first position unchanged and is itself the new partner's first chat |
| `ChatController.NewPartnerRows` | backend/controllers/chat.controller.js:71-83 | after a new partner's row is added, every row still summarises its partner's first chat |
| `ChatController.NewPartnerOrder` | backend/controllers/chat.controller.js:71-73 | the new partner's row goes last, keeping the rows in first-met order |
| `ChatController.NewPartnerListed` | backend/controllers/chat.controller.js:71-73 | once the new row is added, every partner of the chats seen so far has a row |
| `ChatController.StepNewPartner` | backend/controllers/chat.controller.js:71-83 | a chat with a new partner appends that partner's row and keeps the list valid |
| `ChatController.GetAllConversations` | backend/controllers/chat.controller.js:50-89 | each row is the summary of the first (newest) chat with its partner; rows follow the order partners are first met; every partner has a row; `unreadCount` is 0 |
| `ChatController.ConversationPartnersDistinct` | backend/controllers/chat.controller.js:65-71 | no partner has two rows |
| `ChatController.FirstWithPartnerIsNewest` | backend/controllers/chat.controller.js:60-71 | in the newest-first list, the first chat with a partner is no older than any other chat with them |
| `ChatController.LastMessageIsNewest` | backend/controllers/chat.controller.js:60-80 | a row's `lastMessageTime` is no earlier than any chat of the user with that partner |
| `ChatController.FindById` | backend/controllers/chat.controller.js:103 | the position of the first chat with the id; none before it has the id |
| `ChatController.DeleteMessage` | backend/controllers/chat.controller.js:99-107 | not-found exactly when no chat has the id, and then the store is unchanged; otherwise one chat with that id is removed and every other chat kept |
| `ChatController.DeleteResponse` | backend/controllers/chat.controller.js:105-107 | (definition) 404 with "Message not found", or 200 with "Message deleted successfully" |
| `ChatController.DeleteMessageStatus` | backend/controllers/chat.controller.js:103-107 | the controller answers 404 exactly when no chat has the id, and 200 exactly when one does |
| `ChatController.DeleteMessageRemovesId` | backend/controllers/chat.controller.js:103 | with unique ids, after a delete the store holds exactly the chats with another id |
| `JsText.IsWhitespace` | frontend/chat-application/src/Pages/Chat.jsx:173-175 | (definition) the characters `trim` removes: the ECMAScript white space and line terminator characters |
| `JsText.LeadingWhitespace` | frontend/chat-application/src/Pages/Chat.jsx:175 | the length of the run of whitespace at the start |
| `JsText.TrailingStart` | frontend/chat-application/src/Pages/Chat.jsx:175 | where the run of whitespace at the end begins |
| `JsText.Trim` | frontend/chat-application/src/Pages/Chat.jsx:175 | `trim` returns a contiguous part of the string with only whitespace outside it and no whitespace at either end |
| `JsText.TrimEmptyIffBlank` | frontend/chat-application/src/Pages/Chat.jsx:173 | `!message.trim()` holds exactly when the message is all whitespace |
| `JsText.TrimIdempotent` | frontend/chat-application/src/Pages/Chat.jsx:175 | trimming the trimmed text changes nothing |
| `JsText.ToLowerCase` | frontend/chat-application/src/Pages/Chat.jsx:397 | (definition) `toLowerCase`, character by character, on ASCII letters only |
| `JsText.ToUpperCase` | frontend/chat-application/src/Pages/Chat.jsx:268 | (definition) `toUpperCase`, character by character, on ASCII letters only |
| `JsText.Includes` | frontend/chat-application/src/Pages/Chat.jsx:397 | (definition) `includes`: the query is a prefix of the string or of one of its suffixes; `IncludesIffOccurs` relates it to a position |
| `JsText.IncludesIffOccurs` | frontend/chat-application/src/Pages/Chat.jsx:397 | `includes(q)` holds exactly when `q` occurs at some position |
| `JsText.Split` | frontend/chat-application/src/Pages/Chat.jsx:268 | `split` yields at least one piece and no piece holds the separator |
| `JsText.Join` | frontend/chat-application/src/Pages/Chat.jsx:268 | (definition) `join(sep)`: the pieces with the separator between them |
| `JsText.JoinSplit` | frontend/chat-application/src/Pages/Chat.jsx:268 | joining the pieces of a split with the same separator gives back the string |
| `JsText.FirstCodeUnit` | frontend/chat-application/src/Pages/Chat.jsx:270 | `charCodeAt(0)` is a 16-bit code unit: the character itself inside the Basic Multilingual Plane, a high surrogate beyond it |
| `Seqs.Filter` | frontend/chat-application/src/Pages/Chat.jsx:135 | `filter` keeps exactly the elements that pass and never lengthens the list |
| `Seqs.FilterConcat` | frontend/chat-application/src/Pages/Chat.jsx:396-397 | filtering keeps the original relative order |
| `ChatHelpers.TruncateMessage` | frontend/chat-application/src/Pages/Chat.jsx:290-292 | a message of at most `maxLength` characters is returned as is; a longer one becomes its first `maxLength` characters and `...`; the result is never longer than `maxLength + 3` |
| `ChatHelpers.TruncateMessageIdempotent` | frontend/chat-application/src/Pages/Chat.jsx:290-292 | truncating a truncated message again changes nothing |
| `ChatHelpers.WordInitials` | frontend/chat-application/src/Pages/Chat.jsx:268 | (definition) `map(n => n[0]).join('')`: the first character of each piece, nothing for an empty piece (its `undefined` joins as nothing) |
| `ChatHelpers.WordStarts` | frontend/chat-application/src/Pages/Chat.jsx:268 | word starts are characters of the name and never spaces |
| `ChatHelpers.WordInitialsAreWordStarts` | frontend/chat-application/src/Pages/Chat.jsx:268 | `split(' ').map(n => n[0]).join('')` collects exactly the non-space characters that start the name or follow a space, in order |
| `ChatHelpers.Initials` | frontend/chat-application/src/Pages/Chat.jsx:268 | the initials have at most two characters |
| `ChatHelpers.ColorIndex` | frontend/chat-application/src/Pages/Chat.jsx:269-270 | the colour index exists exactly for a non-empty name and lies in [0, 7) |
| `ChatHelpers.GenerateAvatar` | frontend/chat-application/src/Pages/Chat.jsx:267-272 | at most two initials; a colour from the palette exactly when the name is non-empty |
| `ChatHelpers.AvatarInitialsAreWordStarts` | frontend/chat-application/src/Pages/Chat.jsx:268 | the initials are the first two word starts of the name, upper-cased, in order |
| `ChatHelpers.AvatarColorByFirstCharacter` | frontend/chat-application/src/Pages/Chat.jsx:270 | two names with the same first character get the same colour |
| `ChatHelpers.MatchesQuery` | frontend/chat-application/src/Pages/Chat.jsx:397 | (definition) `username.toLowerCase().includes(searchQuery.toLowerCase())` |
| `ChatHelpers.SearchFilter` | frontend/chat-application/src/Pages/Chat.jsx:396-397 | (definition) the list searches (also at lines 559-560): `filter` by `MatchesQuery` on each entry's username |
| `ChatHelpers.SearchFilterMembers` | frontend/chat-application/src/Pages/Chat.jsx:396-397 | the search keeps exactly the entries whose lower-cased username contains the lower-cased query |
| `ChatHelpers.SearchFilterKeepsOrder` | frontend/chat-application/src/Pages/Chat.jsx:559-560 | the search keeps the entries in their original order |
| `ChatHelpers.SearchFilterEmptyQuery` | frontend/chat-application/src/Pages/Chat.jsx:559-560 | an empty query keeps every entry |
| `ChatHelpers.OtherUsers` | frontend/chat-application/src/Pages/Chat.jsx:135 | the user list holds exactly the fetched users other than the current one |
| `ChatHelpers.OtherUsersExcludesSelf` | frontend/chat-application/src/Pages/Chat.jsx:135 | no listed user is the current user, and the order of the others is kept |
| `ChatPage.AcceptsIncoming` | frontend/chat-application/src/Pages/Chat.jsx:78 | (definition) the `receive_message` guard: from someone else, to the current user |
| `ChatPage.SaveDraft` | frontend/chat-application/src/Pages/Chat.jsx:148-153 | key by key: a user has a draft afterwards exactly when they had one before or they are the open conversation and the message has a non-whitespace character; that draft is then the untrimmed message, and every other draft keeps its text |
| `ChatPage.RestoreDraft` | frontend/chat-application/src/Pages/Chat.jsx:164 | (definition) `draftMessages[u._id]` or else `''`: the stored draft, or `''` when there is none or it is empty |
| `ChatPage.Page.constructor` | frontend/chat-application/src/Pages/Chat.jsx:12-18 | the page starts with no selection, an empty history and input, and empty typing and draft maps |
| `ChatPage.Page.ReceiveMessage` | frontend/chat-application/src/Pages/Chat.jsx:76-79 | an incoming message is appended exactly when it is from someone else to the current user; earlier history is always kept, and nothing else changes |
| `ChatPage.Page.UserTyping` | frontend/chat-application/src/Pages/Chat.jsx:97-101 | the sender's typing flag is set to the received value and every other key keeps its presence and value |
| `ChatPage.Page.FetchChatHistory` | frontend/chat-application/src/Pages/Chat.jsx:144-169 | with no ids nothing changes; otherwise the draft is saved by `SaveDraft` and `u` is selected; if the request succeeds, the fetched history is shown and the input becomes `u`'s draft as it was when the call began, or `''` |
| `ChatPage.Page.SendMessage` | frontend/chat-application/src/Pages/Chat.jsx:171-232 | a blank message does nothing; otherwise only the open conversation's draft is deleted and the trimmed text is sent; success appends it locally and emits it and a stopped-typing signal; failure puts the trimmed text back |
| `ChatPage.SentMessageShownToReceiver` | frontend/chat-application/src/Pages/Chat.jsx:78-79 | a sent message to an online receiver reaches that receiver's socket, and the receiver's page shows it exactly when it was not sent to oneself |

## Left out

- Socket.IO transport: `io.emit` and `io.to(...).emit` are returned as a list of `Emit` values (a target and a payload). Delivery, socket creation, CORS, `server.listen` and logging are not modelled.
- Concurrency: handlers are atomic steps. On the page, work done between an `await` and its continuation is not interleaved with other events. The HTTP reply is a parameter of the transition.
- HTTP, axios and Mongoose (`create`, `find`, `populate`, `findByIdAndDelete`, `connectDB`): query results are the input sequence `store`. The `sendMessage` controller (a `create` and a `populate`), `validationResult`, and the HTTP 500 `catch` branches are not modelled.
- `ChatStore.SortByCreatedAt`: MongoDB leaves the order of chats with equal `createdAt` unspecified. The model fixes one order (stable, storage order), so only the properties proved about sortedness and contents carry over.
- `backend/controllers/user.controller.js`, the routes and the models: hashing, tokens, cookies and validator plumbing. The schemas only shape the `User` and `Chat` datatypes (required fields, the `chatType` enum, `seen` defaulting to false).
- Chat.jsx outside the named handlers: the `localStorage` effect, `fetchConversations`, the `update_online_users` listener (it only stores the received list), `handleTyping` with its one-second debounce timer, desktop notifications, window focus tracking, scrolling, `formatTime` (wall clock and locale) and all JSX rendering.
- The page's socket is assumed to exist when `sendMessage` runs. The effect that creates it depends on `[user, selectedUser]` (Chat.jsx:62-111), so every conversation switch disconnects the old socket and opens a new one, which announces `user_connected` again; at the server each switch is a `disconnect` followed by a `user_connected`. The model does not follow the page's socket across these reconnections; the server handlers model each event on its own.
- `JsText.ToLowerCase` and `JsText.ToUpperCase` map only ASCII letters; other characters are left unchanged, so language-specific case mapping is not modelled.
- `ChatHelpers.TruncateMessage`, `ChatHelpers.Initials`: lengths, `substring`, `slice` and `n[0]` count Unicode characters, while JavaScript counts UTF-16 code units. The two agree inside the Basic Multilingual Plane. `charCodeAt(0)` itself is modelled exactly by `JsText.FirstCodeUnit`.
- `ChatHelpers.TruncateMessage`: `maxLength` is a natural number. JavaScript would clamp a negative `maxLength`, but the only caller uses the default, 30.
- `ChatPage.Page.FetchChatHistory`: ids are strings, and a missing id is the empty string, which is falsy in JavaScript. A user id that names an `Object.prototype` member (such as `toString`) would make the JavaScript draft lookup return that member instead of a draft. The model does not cover this; MongoDB ids never take such values.
- Malformed socket events: `MessageData` and `TypingSignal` are typed records with every field present, so the model cannot express a `send_message` or `typing` event whose payload is missing or `null`. In the code such an event throws inside its handler (app.js:55, 62).
- Object ids: `ObjectId` is a string compared with `==`. The `$or` queries cast the route parameter to an ObjectId (chat.controller.js:32-36, 56-57), while the partner test compares `toString()` with the raw parameter by `===` (line 68). The model assumes every id arrives in the canonical form in which the two comparisons agree.
- Shapes of history entries: `Page.chatHistory` holds flat `MessageData` records with string ids. A fetched history (chat.controller.js:38-39, Chat.jsx:161) holds populated chat documents whose `sender` and `receiver` are `{_id, username}` objects, while entries appended by `receive_message` and `sendMessage` (Chat.jsx:79, 198-209) are flat records. The model does not tell the two shapes apart. No proved property depends on the difference.
