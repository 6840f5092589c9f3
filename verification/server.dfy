/**
 * The connection handler of src/app.ts: the registry of live sockets
 * (`clients`), what happens when a socket connects, sends a frame or closes,
 * and the authenticated conversation request `GET /chat/:contact`.
 */
module Server {
  import opened Wrappers
  import opened Records
  import opened Identity
  import opened Conversation
  import opened OfflineQueue
  import opened Transport
  import opened Store
  import opened Router

  /** Close code for a connection without a token. */
  const NoTokenCode: int := 4002
  /** Close code for a token the verification service rejects. */
  const InvalidTokenCode: int := 4003

  /** The verification service: from the token (absent or not) to the decoded
      user, or `None` for a rejection or a failed call. */
  type Verifier = Option<string> -> Option<User>

  /** `if (!token)`: an absent or empty query parameter. */
  predicate TokenMissing(token: Option<string>) {
    token.None? || token.value == ""
  }

  /** How a connection attempt ended. */
  datatype ConnectOutcome =
    | Refused(code: int)                           // closed with this code, nothing registered
    | Accepted(username: string, drained: bool)    // registered; `drained` is false when the drain hit an error

  /** The HTTP answer to `GET /chat/:contact`. */
  datatype ChatResponse =
    | Unauthorized                 // 401 `{ error: "Token invalid" }`
    | Messages(msgs: seq<Record>)  // the JSON array of the conversation

  class ChatServer {
    /** `clients`: identity to the socket registered last for it. */
    var clients: map<string, Channel>
    /** The `Message` collection. */
    const db: MessageStore
    /** The Redis client holding the offline queues. */
    const redis: OfflineQueues

    ghost predicate Valid()
      reads this, db, redis
    {
      WriteAhead(db.records, redis.lists)
    }

    constructor (db: MessageStore, redis: OfflineQueues)
      requires WriteAhead(db.records, redis.lists)
      ensures Valid() && this.db == db && this.redis == redis && clients == map[]
    {
      this.db, this.redis, clients := db, redis, map[];
    }

    /** The `connection` handler, up to and including the drain of the
        queue (src/app.ts lines 64-87). `popFault` says which RPOP of the drain
        throws, if any, and whether it had taken effect. */
    method Connect(ws: Channel, token: Option<string>, verifier: Verifier, popFault: Option<PopFault>)
      returns (outcome: ConnectOutcome)
      requires Valid() && ws.open
      modifies this, ws, redis
      ensures Valid() && db.records == old(db.records)
      ensures TokenMissing(token) ==>
                && outcome == Refused(NoTokenCode) && ws.closeCode == Some(NoTokenCode) && !ws.open
                && clients == old(clients) && redis.lists == old(redis.lists) && ws.outbox == old(ws.outbox)
      ensures !TokenMissing(token) && verifier(token).None? ==>
                && outcome == Refused(InvalidTokenCode) && ws.closeCode == Some(InvalidTokenCode) && !ws.open
                && clients == old(clients) && redis.lists == old(redis.lists) && ws.outbox == old(ws.outbox)
      ensures !TokenMissing(token) && verifier(token).Some? ==>
                var name := Username(verifier(token).value.name);
                var d := Drain(ListAt(old(redis.lists), QueueKey(name)), popFault);
                && outcome == Accepted(name, d.completed)
                && clients == old(clients)[name := ws]
                && redis.lists == SetList(old(redis.lists), QueueKey(name), d.rest)
                && ws.outbox == old(ws.outbox) + d.sent
                && ws.open && ws.closeCode == old(ws.closeCode)
    {
      if TokenMissing(token) {
        ws.Close(NoTokenCode);
        return Refused(NoTokenCode);
      }
      var user := verifier(token);
      if user.None? {
        ws.Close(InvalidTokenCode);
        return Refused(InvalidTokenCode);
      }
      var username := Username(user.value.name);
      clients := clients[username := ws];
      WriteAheadAfterDrain(db.records, redis.lists, QueueKey(username), popFault);
      var completed := DeliverQueuedMessages(redis, username, ws, popFault);
      outcome := Accepted(username, completed);
    }

    /** The `message` handler (src/app.ts lines 89-100): `frame` is the result
        of `JSON.parse`, `None` when it threw, in which case the frame is dropped;
        `save` and `push` say how the store's save and Redis's LPUSH end. */
    method OnFrame(username: string, frame: Option<Frame>, now: Timestamp, save: CallOutcome, push: CallOutcome)
      returns (routing: Option<Routing>)
      requires Valid()
      modifies db, redis, if frame.Some? then RecipientChannel(clients, frame.value.to) else {}
      ensures Valid()
      ensures frame.None? ==> routing.None? && db.records == old(db.records) && redis.lists == old(redis.lists)
      ensures frame.Some? ==>
                var to := frame.value.to;
                var rec := Record(username, to, frame.value.message, now);
                && routing.Some?
                && (routing.value == SaveFailed <==> save.Throws())
                && (routing.value == DeliveredLive <==> !save.Throws() && old(Online(clients, to)))
                && (routing.value == Queued <==> !save.Throws() && !old(Online(clients, to)) && !push.Throws())
                && (routing.value == QueueFailed <==> !save.Throws() && !old(Online(clients, to)) && push.Throws())
                && db.records == (if save.Applied() then old(db.records) + [rec] else old(db.records))
                && redis.lists == (if (routing.value == Queued || routing.value == QueueFailed) && push.Applied()
                                   then PushHead(old(redis.lists), QueueKey(to), rec) else old(redis.lists))
                && (to in clients ==>
                      clients[to].outbox == if routing.value == DeliveredLive
                                            then old(clients[to].outbox) + [rec] else old(clients[to].outbox))
                && (to in clients ==>
                      clients[to].open == old(clients[to].open) && clients[to].closeCode == old(clients[to].closeCode))
    {
      if frame.None? {
        return None;
      }
      var r := HandleMessage(clients, db, redis, username, frame.value.to, frame.value.message, now,
                             save, push);
      routing := Some(r);
    }

    /** The `close` handler (src/app.ts lines 102-105), run once the socket
        `ws` of the connection of `username` has closed: the identity's entry
        is deleted whichever socket it holds, so a stale socket closing evicts
        a newer one registered under the same identity. */
    method OnClose(username: string, ws: Channel)
      requires Valid()
      modifies this, ws
      ensures Valid()
      ensures clients == old(clients) - {username}
      ensures !ws.open && ws.outbox == old(ws.outbox) && ws.closeCode == old(ws.closeCode)
    {
      ws.Closed();
      clients := clients - {username};
    }

    /** `GET /chat/:contact` (src/app.ts lines 112-129): authenticate the `jwt`
        cookie, derive both names, and answer with the conversation; a failed
        query answers with an empty list. Records carry no identity of their
        own, so the answer holds each matching record as often as the store does. */
    function Chat(cookie: Option<string>, contactParam: string, verifier: Verifier, queryFails: bool)
      : (resp: ChatResponse)
      reads db
      ensures verifier(cookie).None? <==> resp == Unauthorized
      ensures verifier(cookie).Some? ==>
                var me := Username(verifier(cookie).value.name);
                var peer := ContactName(contactParam);
                && resp.Messages?
                && SortedByTime(resp.msgs)
                && (queryFails ==> resp.msgs == [])
                && (!queryFails ==> multiset(resp.msgs) == multiset(Filter(db.records, me, peer)))
                && (forall x :: x in resp.msgs <==> !queryFails && x in db.records && Between(x, me, peer))
    {
      var user := verifier(cookie);
      if user.None? then Unauthorized
      else Messages(GetConversation(db.records, ContactName(contactParam), Username(user.value.name), queryFails))
    }
  }

  /** The concrete facts the walk-through relies on: bob's display name maps
      to the identity "bob", and draining a one-entry queue sends that entry
      and empties the queue. */
  lemma WalkThroughFacts(hi: Record)
    ensures Username("bob -IIITK") == "bob"
    ensures Drain([hi], None) == DrainResult([hi], [], [], true)
  {
    assert "bob -IIITK" == "bob" + Suffix;
    UsernameStripsTrailingSuffix("bob");
    assert DeliveryOrder([hi]) == [hi];
    DrainEmptied([hi], [hi], None);
  }

  /** The offline half of the walk-through: alice writes to bob while bob is
      away; the record is stored and queued, and is already part of their
      conversation. */
  method OfflineThenLiveScenario(verifier: Verifier)
    requires verifier(Some("b")) == Some(User("bob -IIITK"))
  {
    var db := new MessageStore.Init();
    var redis := new OfflineQueues.Init();
    var server := new ChatServer(db, redis);
    var hi := Record("alice", "bob", "hi", 1);

    var routing := server.OnFrame("alice", Some(Frame("bob", "hi")), 1, Succeeded, Succeeded);
    assert routing == Some(Queued);
    assert db.records == [hi];
    assert ListAt(redis.lists, QueueKey("bob")) == [hi];
    StoredRecordInConversation(db.records, hi);

    BobComesOnline(server, verifier, hi);
  }

  /** bob connects with a queued record waiting: he receives it and his queue
      is left empty. */
  method BobComesOnline(server: ChatServer, verifier: Verifier, hi: Record)
    requires server.Valid()
    requires verifier(Some("b")) == Some(User("bob -IIITK"))
    requires hi == Record("alice", "bob", "hi", 1)
    requires server.db.records == [hi] && ListAt(server.redis.lists, QueueKey("bob")) == [hi]
    modifies server, server.db, server.redis
  {
    WalkThroughFacts(hi);
    var token := Some("b");
    assert !TokenMissing(token);
    assert Username(verifier(token).value.name) == "bob";
    var bob := new Channel.Accept();
    var outcome := server.Connect(bob, token, verifier, None);
    assert outcome == Accepted("bob", true);
    assert bob.outbox == [hi];
    assert ListAt(server.redis.lists, QueueKey("bob")) == [];
    BobReceivesLive(server, bob, hi);
  }

  /** With bob registered on an open socket, the next message to him goes out
      live, after what he already received, and is stored but not queued. */
  method BobReceivesLive(server: ChatServer, bob: Channel, hi: Record)
    requires server.Valid() && "bob" in server.clients && server.clients["bob"] == bob
    requires bob.open && bob.outbox == [hi] && server.db.records == [hi]
    modifies server.db, server.redis, bob
  {
    var again := Record("alice", "bob", "again", 2);
    var lists := server.redis.lists;
    var routing := server.OnFrame("alice", Some(Frame("bob", "again")), 2, Succeeded, Succeeded);
    assert routing == Some(DeliveredLive);
    assert bob.outbox == [hi, again];
    assert server.db.records == [hi, again];
    assert server.redis.lists == lists;
  }
}
