/**
 * `handleMessage` and `deliverQueuedMessages`, which src/app.ts and
 * src/controllers/messageController.ts define identically. The registry of
 * live sockets (`clients`) is a parameter here: app.ts passes its own map,
 * and the controller copy uses a `clients` it never declares.
 */
module Router {
  import opened Wrappers
  import opened Records
  import opened OfflineQueue
  import opened Transport
  import opened Store

  /** The invariant linking the store and the queues: every queued entry was
      persisted first, and sits in the list of its own recipient. */
  ghost predicate WriteAhead(records: seq<Record>, lists: Lists) {
    && NoEmptyList(lists)
    && forall k, e | e in ListAt(lists, k) :: e in records && k == QueueKey(e.to)
  }

  /** Persisting a record keeps the invariant. */
  lemma WriteAheadPersist(records: seq<Record>, lists: Lists, rec: Record)
    requires WriteAhead(records, lists)
    ensures WriteAhead(records + [rec], lists)
  {
  }

  /** Queuing a persisted record under its recipient's key keeps the invariant. */
  lemma WriteAheadEnqueue(records: seq<Record>, lists: Lists, rec: Record)
    requires WriteAhead(records, lists) && rec in records
    ensures WriteAhead(records, PushHead(lists, QueueKey(rec.to), rec))
  {
    var m := PushHead(lists, QueueKey(rec.to), rec);
    forall k, e | e in ListAt(m, k) ensures e in records && k == QueueKey(e.to) {
      if k == QueueKey(rec.to) && e != rec {
        assert e in ListAt(lists, k);
      }
    }
  }

  /** Taking entries off the end of one list keeps the invariant. */
  lemma WriteAheadDrain(records: seq<Record>, lists: Lists, key: string, rest: seq<Record>, gone: seq<Record>)
    requires WriteAhead(records, lists) && ListAt(lists, key) == rest + gone
    ensures WriteAhead(records, SetList(lists, key, rest))
  {
    var m := SetList(lists, key, rest);
    SetListFrame(lists, key, rest);
    forall k, e | e in ListAt(m, k) ensures e in records && k == QueueKey(e.to) {
      if k == key {
        assert e in ListAt(lists, key);
      }
    }
  }

  /** A drain of one list, however it ends, keeps the invariant. */
  lemma WriteAheadAfterDrain(records: seq<Record>, lists: Lists, key: string, fault: Option<PopFault>)
    requires WriteAhead(records, lists)
    ensures WriteAhead(records, SetList(lists, key, Drain(ListAt(lists, key), fault).rest))
  {
    var d := Drain(ListAt(lists, key), fault);
    DrainSpec(ListAt(lists, key), fault);
    assert ListAt(lists, key) == d.rest + (d.lost + DeliveryOrder(d.sent));
    WriteAheadDrain(records, lists, key, d.rest, d.lost + DeliveryOrder(d.sent));
  }

  /** How one inbound message was routed. */
  datatype Routing =
    | SaveFailed      // `save()` threw: nothing was sent or queued (the record may still have been stored)
    | DeliveredLive   // sent on the recipient's open socket
    | Queued          // LPUSHed onto `messages:<to>`
    | QueueFailed     // the LPUSH threw: the record may or may not be in the queue

  /** The socket a message to `to` may be sent on. */
  function RecipientChannel(clients: map<string, Channel>, to: string): set<Channel> {
    if to in clients then {clients[to]} else {}
  }

  /** The recipient is registered on an open socket. */
  predicate Online(clients: map<string, Channel>, to: string)
    reads RecipientChannel(clients, to)
  {
    to in clients && clients[to].open
  }

  /** `handleMessage(username, { to, message })` at time `now`; `save` and
      `push` say how the store's save and Redis's LPUSH end. The record is
      saved first; then it goes to the recipient's socket if that socket is
      registered and open, and onto the recipient's queue otherwise. */
  method HandleMessage(clients: map<string, Channel>, db: MessageStore, redis: OfflineQueues,
                       username: string, to: string, message: string, now: Timestamp,
                       save: CallOutcome, push: CallOutcome) returns (routing: Routing)
    requires WriteAhead(db.records, redis.lists)
    modifies db, redis, RecipientChannel(clients, to)
    ensures WriteAhead(db.records, redis.lists)
    ensures routing == SaveFailed <==> save.Throws()
    ensures routing == DeliveredLive <==> !save.Throws() && old(Online(clients, to))
    ensures routing == Queued <==> !save.Throws() && !old(Online(clients, to)) && !push.Throws()
    ensures routing == QueueFailed <==> !save.Throws() && !old(Online(clients, to)) && push.Throws()
    ensures db.records == if save.Applied() then old(db.records) + [Record(username, to, message, now)]
                          else old(db.records)
    ensures redis.lists == if (routing == Queued || routing == QueueFailed) && push.Applied()
                           then PushHead(old(redis.lists), QueueKey(to), Record(username, to, message, now))
                           else old(redis.lists)
    ensures to in clients ==>
              clients[to].outbox == if routing == DeliveredLive
                                    then old(clients[to].outbox) + [Record(username, to, message, now)]
                                    else old(clients[to].outbox)
    ensures to in clients ==> clients[to].open == old(clients[to].open) && clients[to].closeCode == old(clients[to].closeCode)
  {
    var recipient: Option<Channel> := if to in clients then Some(clients[to]) else None;
    var rec := Record(username, to, message, now);
    if save.Applied() {
      WriteAheadPersist(db.records, redis.lists, rec);
      db.Save(rec);
    }
    if save.Throws() {
      return SaveFailed;
    }
    if recipient.Some? && recipient.value.open {
      recipient.value.Send(rec);
      routing := DeliveredLive;
    } else {
      if push.Applied() {
        WriteAheadEnqueue(db.records, redis.lists, rec);
        redis.LPush(QueueKey(to), rec);
      }
      routing := if push.Throws() then QueueFailed else Queued;
    }
  }

  /** RPOP on a list that a drain has already shortened to `rest`. */
  lemma PopStep(m0: Lists, key: string, rest: seq<Record>)
    requires rest != []
    ensures PopTail(SetList(m0, key, rest), key).0 == Some(rest[|rest| - 1])
    ensures PopTail(SetList(m0, key, rest), key).1 == SetList(m0, key, rest[..|rest| - 1])
  {
    SetListTwice(m0, key, rest, rest[..|rest| - 1]);
  }

  /** `deliverQueuedMessages(username, ws)`: RPOP the recipient's list and send
      each entry on `ws` until RPOP returns nil, or until the RPOP `popFault`
      names throws, which ends the loop; if that RPOP had taken effect, the
      entry it removed is lost. Popped entries are gone from the list whether
      or not the send reached the peer. */
  method DeliverQueuedMessages(redis: OfflineQueues, username: string, ws: Channel, popFault: Option<PopFault>)
    returns (completed: bool)
    requires NoEmptyList(redis.lists)
    modifies redis, ws
    ensures var d := Drain(ListAt(old(redis.lists), QueueKey(username)), popFault);
            && completed == d.completed
            && redis.lists == SetList(old(redis.lists), QueueKey(username), d.rest)
            && ws.outbox == old(ws.outbox) + (if old(ws.open) then d.sent else [])
    ensures ws.open == old(ws.open) && ws.closeCode == old(ws.closeCode)
  {
    var key := QueueKey(username);
    ghost var m0 := redis.lists;
    ghost var q0 := ListAt(m0, key);
    ghost var open0, out0 := ws.open, ws.outbox;
    SetListSame(m0, key);
    ghost var sent: seq<Record> := [];
    ghost var rest := q0;
    var i := 0;
    while true
      invariant i == |sent|
      invariant q0 == rest + DeliveryOrder(sent)
      invariant popFault.Some? ==> i <= popFault.value.at
      invariant redis.lists == SetList(m0, key, rest)
      invariant open0 ==> ws.outbox == out0 + sent
      invariant !open0 ==> ws.outbox == out0
      invariant ws.open == open0 && ws.closeCode == old(ws.closeCode)
      decreases |rest|
    {
      if popFault.Some? && popFault.value.at == i {
        DrainFaulted(q0, sent, rest, popFault.value.applied);
        if popFault.value.applied {
          // Redis ran the command; the reply, and the entry with it, is lost.
          var _ := redis.RPop(key);
          if rest != [] {
            PopStep(m0, key, rest);
          }
        }
        return false;
      }
      var e := redis.RPop(key);
      if e.None? {
        break;
      }
      PopStep(m0, key, rest);
      DrainStep(q0, sent, rest);
      ws.Send(e.value);
      sent, rest := sent + [e.value], rest[..|rest| - 1];
      i := i + 1;
    }
    DrainEmptied(q0, sent, popFault);
    return true;
  }
}
