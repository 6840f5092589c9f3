# Message server: session routing and offline delivery

A Dafny model of the core of a small chat server. Users connect over a
WebSocket, authenticated by a token that an external verification service
decodes into a user. Every message is first saved to a document store (a
`Message` collection). It is then sent at once if the recipient holds an open
socket, and otherwise pushed onto a per-recipient Redis list
`messages:<recipient>`. When a user connects, that list is drained to their
new socket, oldest message first. An HTTP route `GET /chat/:contact` returns
the stored conversation between the caller and a contact, sorted by
timestamp.

The model has one module per concern:

- `Records`: the message record `{from, to, message, timestamp}`, the parsed
  inbound frame `{to, message}` and the decoded user.
- `Identity`: routing identities. An identity is the display name with the
  first occurrence of `" -IIITK"` removed; JavaScript `replace` with a string
  pattern removes only the leftmost match, wherever it is. The contact name
  is the route parameter minus its first character.
- `Conversation`: the conversation query. It is the `$or` filter over both
  directions, then an ascending sort by timestamp, and `[]` when the query
  throws.
- `OfflineQueue`: the Redis lists as a keyspace `map<string, seq<Record>>`.
  LPUSH puts an entry at the head, RPOP takes one from the tail, and a list
  whose last entry is popped disappears. The class `OfflineQueues` is the
  client that updates it in place. Its `Drain` function says what
  draining one list does when the k-th RPOP throws. That RPOP may throw
  before Redis removed the entry, or after, in which case the entry is lost.
- `Transport`: a socket (`Channel`) with its open state, the frames sent on
  it and the code it was closed with. A send on a socket that is no longer
  open is discarded without an error.
- `Store`: the message collection as an append-only sequence.
- `Router`: `handleMessage` and `deliverQueuedMessages`. `src/app.ts` and
  `src/controllers/messageController.ts` define them with identical bodies,
  and both are modelled by the same two methods. It also holds the write-ahead
  invariant `WriteAhead`: every queued entry is a saved record, and sits in
  its own recipient's list.
- `Server`: the `ChatServer` class with the `clients` registry, the handlers
  for connect, inbound frame and close, the authenticated conversation route,
  and a walk-through in which bob is offline, then connects, then receives
  live.

Each of these outside effects is a parameter of the operation that depends on it:

- the clock (`now`);
- the answer of the verification service (`verifier`);
- how a store save ends (`save`);
- how an LPUSH ends (`push`);
- which RPOP of a drain throws, if any (`popFault`);
- the failure of the conversation query (`queryFails`).

A save, an LPUSH or an RPOP that throws may have failed before its command
took effect (`FailedBefore`, `applied` false) or after it (`FailedAfter`,
`applied` true). In the second case the store or the list has changed, but
the server only sees the exception. The store and Redis classes model only
the effect of a command; the handlers decide from the outcome.

## Model

| member | source | states |
|---|---|---|
| Identity.IndexOf | src/app.ts:83 | the index found is the leftmost occurrence of the pattern; `None` only when the pattern occurs nowhere |
| Identity.Username | src/app.ts:83 | a display name without `" -IIITK"` is its own identity; any other identity is the name with exactly seven characters removed |
| Identity.ReplaceFirst | src/app.ts:83 | a string without the pattern is unchanged; otherwise exactly the leftmost occurrence is replaced |
| Identity.UsernameWithoutSuffix | src/app.ts:83 | a display name that does not contain `" -IIITK"` is its own identity |
| Identity.UsernameCutsFirstOccurrence | src/app.ts:83 | the identity is the name with the seven characters of the first `" -IIITK"` cut out, so it is exactly seven characters shorter |
| Identity.UsernameStripsTrailingSuffix | src/app.ts:83 | a name `base + " -IIITK"` whose base has no occurrence maps to `base`; no occurrence can straddle the end of the base |
| Identity.CutKeepsLaterOccurrence | src/app.ts:83 | cutting one occurrence of a pattern keeps any later occurrence, shifted left by the pattern's length |
| Identity.UsernameKeepsLaterOccurrence | src/app.ts:119 | only the first occurrence is removed: a later one survives in the identity, shifted left by seven |
| Identity.ContactName | src/app.ts:120 | the contact is the parameter without its first character; an empty parameter gives the empty name |
| Conversation.Filter | src/app.ts:139-143 | a record is selected iff it is stored and goes from one of the two users to the other |
| Conversation.Insert | src/app.ts:144 | inserting into a sorted sequence keeps it sorted and adds exactly that record |
| Conversation.SortByTime | src/app.ts:144 | the result is ascending by timestamp and a permutation of the input |
| Conversation.GetConversation | src/app.ts:137-150 | on a query failure `[]`; otherwise sorted by timestamp, a permutation of the matching records, and containing a record iff it is stored and between the two users |
| Conversation.StoredRecordInConversation | src/app.ts:137-150 | a saved record is in the conversation of its sender and recipient, asked from either side, whether it was delivered live or queued |
| Conversation.FilterSymmetric | src/app.ts:140-143 | the `$or` filter gives the same records whichever user is named first |
| Conversation.ConversationSymmetric | src/app.ts:137-150 | both parties asking for their conversation get the same records in the same order; the source fixes that order only up to records with equal timestamps |
| Conversation.FilterCount | src/app.ts:139-143 | the filter keeps each matching record as many times as the store holds it, and no other record |
| Conversation.FilterAppend | src/app.ts:139-143 | saving a record adds it to the end of the filtered records of its own pair, and leaves every other pair's filtered records unchanged |
| OfflineQueue.QueueKey | src/app.ts:167 | the key is `"messages:"` followed by the recipient identity |
| OfflineQueue.QueueKeyInjective | src/app.ts:167 | two recipients never share a queue key |
| OfflineQueue.SetList | src/app.ts:177 | after setting, the list under the key is the given one (an empty list means the key is gone) |
| OfflineQueue.SetListFrame | src/app.ts:177 | setting one list leaves every other list alone and never leaves an empty list stored |
| OfflineQueue.PushHead | src/app.ts:167 | LPUSH puts the entry at the head of its list, touches no other list, and never leaves an empty list |
| OfflineQueue.PopTail | src/app.ts:177 | RPOP on an empty or missing list gives nil and changes nothing; otherwise it returns the last entry and the list loses exactly that entry |
| OfflineQueue.PopTailFrame | src/app.ts:177 | RPOP on one key leaves every other list alone |
| OfflineQueue.DeliveryOrderInvolutive | src/app.ts:176-182 | the sequence of RPOP results, read backwards, is the list |
| OfflineQueue.DeliveryOrderPrefix | src/app.ts:176-182 | the first n entries popped are the last n entries of the list, last first |
| OfflineQueue.DeliveryOrderPush | src/app.ts:167-177 | an LPUSHed entry is popped after every entry already in the list |
| OfflineQueue.PushAllThenDrainIsFifo | src/app.ts:164-182 | messages queued in some order are delivered in that same order, after those queued earlier |
| OfflineQueue.PushEachList | src/app.ts:167 | successive LPUSHes on the keyspace build the recipient's list exactly as `PushAll` does on the bare list |
| OfflineQueue.QueuedInOrderDeliveredInOrder | src/app.ts:164-182 | on the keyspace: messages LPUSHed to one recipient in some order are sent by a fault-free drain in that order, after those queued earlier |
| OfflineQueue.DeliveryOrderAppend | src/app.ts:176-182 | popping a concatenation yields the second part's entries before the first's |
| OfflineQueue.Drain | src/app.ts:174-187 | the closed form of the drain loop: when no RPOP throws, the drain completes; a completed drain loses nothing and leaves nothing queued |
| OfflineQueue.DrainPartition | src/app.ts:174-187 | the list is what the drain leaves, then what it loses, then what it sent in RPOP order; what was sent, lost and left is the list's delivery order |
| OfflineQueue.DrainSpec | src/app.ts:174-187 | as `DrainPartition`, and: the drain completes iff no RPOP throws before one returns nil, including the RPOP that would return nil; a failed drain sent exactly the entries before the faulty RPOP; at most one entry is lost, and one is lost exactly when the faulty RPOP took effect on a non-empty list |
| OfflineQueue.AppliedFaultLosesEntry | src/app.ts:177-185 | when, after k entries were popped and sent, the next RPOP removes its entry and then throws: that entry (the one after those k in delivery order) is neither sent nor left queued, and every later entry is left queued in order |
| OfflineQueue.DrainFaulted | src/app.ts:177-185 | a drain that has sent some entries and meets the faulty RPOP ends as `Drain` says, losing the tail entry when that RPOP took effect |
| OfflineQueue.DrainEmptied | src/app.ts:177-180 | a drain that has sent every entry and then reads nil ends as `Drain` says: completed, nothing lost or left |
| OfflineQueue.OfflineQueues.LPush | src/app.ts:167 | the client's keyspace becomes `PushHead` of the old one |
| OfflineQueue.OfflineQueues.RPop | src/app.ts:177 | the returned entry and the new keyspace are those of `PopTail` on the old one |
| Transport.Channel.Accept | src/app.ts:64 | a new connection is open, has sent nothing and was not closed |
| Transport.Channel.Send | src/app.ts:165 | an open socket appends the frame; a socket that is not open discards it; the state is unchanged |
| Transport.Channel.Closed | src/app.ts:102 | once the connection has closed the socket is no longer open; what was sent and the server's close code are kept |
| Transport.Channel.Close | src/app.ts:74 | the socket is no longer open; the first close records its code and a later one is ignored; nothing is sent |
| Store.MessageStore.Save | src/app.ts:156-162 | a save that takes effect appends the record to the collection |
| Router.WriteAheadPersist | src/app.ts:162 | saving another record keeps the write-ahead invariant |
| Router.WriteAheadEnqueue | src/app.ts:162-167 | queuing a saved record under its recipient's key keeps the write-ahead invariant |
| Router.WriteAheadDrain | src/app.ts:174-182 | popping entries off the end of a list keeps the write-ahead invariant |
| Router.WriteAheadAfterDrain | src/app.ts:174-187 | a drain of one list keeps the write-ahead invariant, whichever RPOP throws and whether or not it took effect |
| Router.HandleMessage | src/controllers/messageController.ts:28-48 | the record `{from, to, message, now}` is saved first, and is in the store iff the save took effect. If the save throws, nothing is sent or queued. Otherwise the record is sent iff the recipient is registered on an open socket. If not, it is LPUSHed onto the head of `messages:<to>`: the outcome is `Queued` iff the LPUSH does not throw, and the record is in the list iff the LPUSH took effect. It is never both sent and queued. The write-ahead invariant holds afterwards. |
| Router.DeliverQueuedMessages | src/controllers/messageController.ts:50-63 | the socket receives exactly `Drain(...).sent`, oldest queued first (nothing if it is no longer open). The recipient's list is left as `Drain(...).rest`; popped entries are never put back, and an entry popped by an RPOP that then threw is lost. The result says whether the list was emptied or an RPOP threw. |
| Server.ChatServer.constructor | src/app.ts:62 | the registry starts empty over a store and queues that satisfy the write-ahead invariant |
| Server.ChatServer.Connect | src/app.ts:64-87 | without a token the socket is closed with 4002, and with a rejected token with 4003, with nothing registered or popped. Otherwise the identity derived from the user name is registered to this socket, replacing any earlier one, and its queue is drained onto the socket as `Drain` says. |
| Server.ChatServer.OnFrame | src/app.ts:89-100 | a frame that does not parse is dropped; a parsed one is routed as `HandleMessage` says, with the connection's identity as sender, and the recipient's socket stays open or closed as it was |
| Server.ChatServer.OnClose | src/app.ts:102-105 | the connection's socket is closed; the identity's entry is removed whichever socket it holds, so a stale socket closing evicts a newer registration; the write-ahead invariant is kept |
| Server.ChatServer.Chat | src/app.ts:112-129 | 401 iff the cookie's token is rejected. Otherwise the answer is `[]` when the query throws. If not, it is sorted by timestamp and holds each stored record between the caller's identity and the contact name as many times as the store does, and no other record. |
| Server.WalkThroughFacts | src/app.ts:83 | the display name `"bob -IIITK"` is the identity `"bob"`, and a fault-free drain of a one-entry queue sends that entry and empties the queue |

## Left out

- The verification service is the `Verifier` parameter. The HTTP POST, its
  network errors and the `decoded` field become its `None`/`Some` answer.
- Connecting to the store and to Redis, and their logging, are left out;
  store and queue start as given objects.
- The Express application, CORS, cookie parsing, the HTTP listener and the
  error-event handlers of the socket are left out; they route or log only.
- Concurrency and interleavings are not modelled; each handler runs to
  completion on its own. In the source, the `message` and `close` listeners
  are attached only after the token check and the drain have finished. A
  frame or a close that arrives while the verification call is awaited, or
  during the drain, finds no listener and is lost. A lost close can leave a
  closed socket registered. The model does not capture this.
- JSON is not modelled: a queued entry and a sent frame are the record itself,
  not its JSON text. The store's `_id` and `__v` fields are not modelled.
- Timestamps are integers from the `now` parameter, not ISO dates.
- Identity.ContactName: Dafny strings are sequences of Unicode scalar values,
  while JavaScript's `substring(1)` drops one UTF-16 code unit. For a
  parameter that starts with a character outside the Basic Multilingual
  Plane, the source keeps a lone low surrogate where the model drops the
  whole character. The model then names a contact the source never matches.
  Identities are unaffected, because `" -IIITK"` is ASCII.
- Conversation.SortByTime: the store's order for records with equal timestamps
  is unspecified; the model keeps store order (a stable sort), and its
  contract states only sortedness and permutation.
- Server.ChatServer.OnFrame: a frame that parses to something without string
  `to` and `message` fields is not modelled. In the source, `null` throws,
  and a missing `to` routes to the key `messages:undefined`.
- Server.ChatServer.Connect: a `token` query parameter given more than once
  (an array) is not modelled, and neither is a verified user without a
  `name`, on which the source throws.
- Server.ChatServer.Chat: a verified user without a `name` is not modelled;
  the chat route throws on it in the same way.
- Router.HandleMessage: when the save or the LPUSH throws, the source's
  promise is rejected and nothing handles it. The model ends the handler
  there (`SaveFailed`, `QueueFailed`) and does not model what the Node
  process then does.
- A query that throws is taken to have read nothing: `queryFails` only
  yields `[]`, since a read has no effect to lose.
- The Mongoose schema files, `ecosystem.config.cjs` and the database and
  Redis configuration modules are not part of this model.
