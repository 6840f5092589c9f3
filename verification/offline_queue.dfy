/**
 * The offline queues kept in Redis: one list per recipient under the key
 * `messages:<recipient>`. Messages go in with LPUSH (at the head) and come out
 * with RPOP (from the tail), so each list is a FIFO whose oldest entry is its
 * last element. Redis deletes a list once its last element is popped.
 */
module OfflineQueue {
  import opened Wrappers
  import opened Records

  /** The Redis keyspace restricted to these lists. A queued entry is the JSON
      text of a record; the model keeps the record it encodes. */
  type Lists = map<string, seq<Record>>

  const KeyPrefix: string := "messages:"

  /** The template string `messages:${to}`. */
  function QueueKey(to: string): (k: string)
    ensures |k| == |KeyPrefix| + |to|
    ensures k[..|KeyPrefix|] == KeyPrefix && k[|KeyPrefix|..] == to
  {
    KeyPrefix + to
  }

  /** Different recipients never share a queue. */
  lemma QueueKeyInjective(a: string, b: string)
    requires QueueKey(a) == QueueKey(b)
    ensures a == b
  {
    assert a == QueueKey(a)[|KeyPrefix|..];
  }

  /** The list stored under `k`; a missing key reads as the empty list. */
  function ListAt(m: Lists, k: string): seq<Record> {
    if k in m then m[k] else []
  }

  /** Redis never holds an empty list. */
  predicate NoEmptyList(m: Lists) {
    forall k | k in m :: m[k] != []
  }

  /** The keyspace after the list under `k` becomes `q` (the key is deleted when `q` is empty). */
  function SetList(m: Lists, k: string, q: seq<Record>): (r: Lists)
    ensures ListAt(r, k) == q
  {
    if q == [] then m - {k} else m[k := q]
  }

  /** Setting one list leaves every other list alone, and introduces no empty list. */
  lemma SetListFrame(m: Lists, k: string, q: seq<Record>)
    ensures forall k' :: k' != k ==> ListAt(SetList(m, k, q), k') == ListAt(m, k')
    ensures NoEmptyList(m) ==> NoEmptyList(SetList(m, k, q))
  {
  }

  /** Setting a list twice keeps only the second value. */
  lemma SetListTwice(m: Lists, k: string, a: seq<Record>, b: seq<Record>)
    ensures SetList(SetList(m, k, a), k, b) == SetList(m, k, b)
  {
  }

  /** Setting a list to what it already is changes nothing. */
  lemma SetListSame(m: Lists, k: string)
    requires NoEmptyList(m)
    ensures SetList(m, k, ListAt(m, k)) == m
  {
  }

  /** LPUSH: the entry becomes the new head of the list under `k`. */
  function PushHead(m: Lists, k: string, e: Record): (r: Lists)
    ensures ListAt(r, k) == [e] + ListAt(m, k)
    ensures forall k' :: k' != k ==> ListAt(r, k') == ListAt(m, k')
    ensures NoEmptyList(m) ==> NoEmptyList(r)
  {
    SetListFrame(m, k, [e] + ListAt(m, k));
    SetList(m, k, [e] + ListAt(m, k))
  }

  /** RPOP: the tail of the list under `k`, or `None` (Redis nil) when there is none. */
  function PopTail(m: Lists, k: string): (res: (Option<Record>, Lists))
    ensures ListAt(m, k) == [] ==> res.0 == None && res.1 == m
    ensures ListAt(m, k) != [] ==> res.0.Some? && ListAt(res.1, k) + [res.0.value] == ListAt(m, k)
    ensures NoEmptyList(m) ==> NoEmptyList(res.1)
  {
    var q := ListAt(m, k);
    if q == [] then (None, m)
    else
      SetListFrame(m, k, q[..|q| - 1]);
      (Some(q[|q| - 1]), SetList(m, k, q[..|q| - 1]))
  }

  /** RPOP on one key leaves every other list alone. */
  lemma PopTailFrame(m: Lists, k: string)
    ensures forall k' :: k' != k ==> ListAt(PopTail(m, k).1, k') == ListAt(m, k')
  {
    if ListAt(m, k) != [] {
      SetListFrame(m, k, ListAt(m, k)[..|ListAt(m, k)| - 1]);
    }
  }


  /** The order in which successive RPOPs return the entries of a list: last element first. */
  function DeliveryOrder(q: seq<Record>): (r: seq<Record>)
  {
    seq(|q|, i requires 0 <= i < |q| => q[|q| - 1 - i])
  }

  /** Reading a delivery order backwards gives the list back. */
  lemma DeliveryOrderInvolutive(q: seq<Record>)
    ensures DeliveryOrder(DeliveryOrder(q)) == q
  {
    var r := DeliveryOrder(DeliveryOrder(q));
    assert forall i | 0 <= i < |q| :: r[i] == q[i];
  }

  /** The first `n` entries delivered are the last `n` of the list, reversed. */
  lemma DeliveryOrderPrefix(q: seq<Record>, n: nat)
    requires n <= |q|
    ensures DeliveryOrder(q)[..n] == DeliveryOrder(q[|q| - n..])
  {
    var t := q[|q| - n..];
    forall i | 0 <= i < n ensures DeliveryOrder(q)[..n][i] == DeliveryOrder(t)[i] {
      assert t[n - 1 - i] == q[|q| - 1 - i];
    }
  }

  /** The list after LPUSHing `xs` one by one, first element first. */
  function PushAll(q: seq<Record>, xs: seq<Record>): (r: seq<Record>)
    ensures |r| == |q| + |xs|
    decreases xs
  {
    if xs == [] then q else PushAll([xs[0]] + q, xs[1..])
  }

  /** An LPUSHed entry is delivered after everything already in the list. */
  lemma DeliveryOrderPush(q: seq<Record>, x: Record)
    ensures DeliveryOrder([x] + q) == DeliveryOrder(q) + [x]
  {
    var l, r := DeliveryOrder([x] + q), DeliveryOrder(q) + [x];
    forall i | 0 <= i < |l| ensures l[i] == r[i] {
      if i < |q| {
        assert ([x] + q)[|q| - i] == q[|q| - 1 - i];
      }
    }
  }

  /** FIFO: entries LPUSHed in the order `xs` are RPOPped in the order `xs`,
      after the entries that were queued before them. */
  lemma {:induction false} PushAllThenDrainIsFifo(q: seq<Record>, xs: seq<Record>)
    ensures DeliveryOrder(PushAll(q, xs)) == DeliveryOrder(q) + xs
    decreases xs
  {
    if xs != [] {
      PushAllThenDrainIsFifo([xs[0]] + q, xs[1..]);
      DeliveryOrderPush(q, xs[0]);
      assert [xs[0]] + xs[1..] == xs;
    }
  }

  /** The keyspace after LPUSHing `xs` one by one onto the list under `k`, first element first. */
  function PushEach(m: Lists, k: string, xs: seq<Record>): (r: Lists)
    decreases xs
  {
    if xs == [] then m else PushEach(PushHead(m, k, xs[0]), k, xs[1..])
  }

  /** LPUSHing onto one key of the keyspace builds that key's list as `PushAll` does. */
  lemma {:induction false} PushEachList(m: Lists, k: string, xs: seq<Record>)
    ensures ListAt(PushEach(m, k, xs), k) == PushAll(ListAt(m, k), xs)
    decreases xs
  {
    if xs != [] {
      PushEachList(PushHead(m, k, xs[0]), k, xs[1..]);
    }
  }

  /** FIFO on the keyspace: messages LPUSHed to one recipient in the order `xs`
      are delivered, by a drain that meets no fault, after the ones already
      queued and in the order `xs`. */
  lemma QueuedInOrderDeliveredInOrder(m: Lists, k: string, xs: seq<Record>)
    ensures DeliveryOrder(ListAt(PushEach(m, k, xs), k)) == DeliveryOrder(ListAt(m, k)) + xs
    ensures Drain(ListAt(PushEach(m, k, xs), k), None).sent == DeliveryOrder(ListAt(m, k)) + xs
  {
    PushEachList(m, k, xs);
    PushAllThenDrainIsFifo(ListAt(m, k), xs);
    DrainSpec(ListAt(PushEach(m, k, xs), k), None);
  }

  /** Reading a concatenation in delivery order reads the second part first. */
  lemma DeliveryOrderAppend(a: seq<Record>, b: seq<Record>)
    ensures DeliveryOrder(a + b) == DeliveryOrder(b) + DeliveryOrder(a)
  {
  }

  /** The RPOP numbered `at` (counting from 0) of a drain throws. When `applied`
      holds, Redis had already removed the entry and only the reply was lost. */
  datatype PopFault = PopFault(at: nat, applied: bool)

  /** The effect of `deliverQueuedMessages` on one list: which entries were sent
      (in the order they were sent), which entry was popped by a throwing RPOP
      and so neither sent nor kept, what is left, and whether the loop ended
      by finding the list empty (`true`) or by an exception (`false`). */
  datatype DrainResult = DrainResult(sent: seq<Record>, lost: seq<Record>, rest: seq<Record>, completed: bool)

  /** Draining the list `q` when RPOP `fault` throws, or none does when
      `fault` is `None`: the first `n` entries in delivery order are sent, and
      a fault that took effect loses one more. */
  function Drain(q: seq<Record>, fault: Option<PopFault>): (d: DrainResult)
    ensures fault.None? ==> d.completed
    ensures d.completed ==> d.lost == [] && d.rest == []
  {
    var n := if fault.Some? && fault.value.at < |q| then fault.value.at else |q|;
    var m := if fault.Some? && fault.value.applied && fault.value.at < |q| then n + 1 else n;
    DrainResult(DeliveryOrder(q)[..n], q[|q| - m..|q| - n], q[..|q| - m], fault.None? || fault.value.at > |q|)
  }

  /** The list is what a drain leaves, then what it loses, then what it sent in RPOP order. */
  lemma DrainPartition(q: seq<Record>, fault: Option<PopFault>)
    ensures var d := Drain(q, fault);
            && q == d.rest + d.lost + DeliveryOrder(d.sent)
            && DeliveryOrder(q) == d.sent + d.lost + DeliveryOrder(d.rest)
  {
    var d := Drain(q, fault);
    var n := |d.sent|;
    var tail := q[|q| - n..];
    assert DeliveryOrder(d.sent) == tail by {
      DeliveryOrderPrefix(q, n);
      DeliveryOrderInvolutive(tail);
    }
    assert q == d.rest + d.lost + tail;
    assert DeliveryOrder(q) == d.sent + d.lost + DeliveryOrder(d.rest) by {
      DeliveryOrderAppend(d.rest + d.lost, tail);
      DeliveryOrderAppend(d.rest, d.lost);
      DeliveryOrderInvolutive(d.sent);
      assert DeliveryOrder(d.lost) == d.lost;
    }
  }

  /** What a drain does to a list: the list is what is left, then the lost
      entry, then the sent ones in RPOP order; the entries come out in delivery
      order; the drain completes iff no RPOP throws before one returns nil; a
      failed drain sent exactly the entries before the faulty RPOP; at most one
      entry is lost, and one is exactly when the faulty RPOP took effect on a
      non-empty list. */
  lemma DrainSpec(q: seq<Record>, fault: Option<PopFault>)
    ensures var d := Drain(q, fault);
            && q == d.rest + d.lost + DeliveryOrder(d.sent)
            && DeliveryOrder(q) == d.sent + d.lost + DeliveryOrder(d.rest)
            && (d.completed <==> fault.None? || fault.value.at > |q|)
            && (d.completed ==> d.rest == [])
            && (!d.completed ==> |d.sent| == fault.value.at)
            && |d.lost| <= 1
            && (d.lost != [] <==> fault.Some? && fault.value.applied && fault.value.at < |q|)
  {
    DrainPartition(q, fault);
  }

  /** A fault whose RPOP had taken effect loses exactly the entry that RPOP
      removed: the `at`-th in delivery order is neither sent nor left queued. */
  lemma AppliedFaultLosesEntry(q: seq<Record>, at: nat)
    requires at < |q|
    ensures var d := Drain(q, Some(PopFault(at, true)));
            && d.lost == [DeliveryOrder(q)[at]]
            && |d.sent| == at && |d.sent| + |d.rest| == |q| - 1
            && DeliveryOrder(q) == d.sent + d.lost + DeliveryOrder(d.rest)
  {
    var d := Drain(q, Some(PopFault(at, true)));
    DrainSpec(q, Some(PopFault(at, true)));
    assert DeliveryOrder(q)[at] == (d.sent + d.lost + DeliveryOrder(d.rest))[at];
  }

  /** One more RPOP during a drain: the popped tail joins the sent entries. */
  lemma DrainStep(q: seq<Record>, sent: seq<Record>, rest: seq<Record>)
    requires q == rest + DeliveryOrder(sent) && rest != []
    ensures q == rest[..|rest| - 1] + DeliveryOrder(sent + [rest[|rest| - 1]])
  {
    var x := rest[|rest| - 1];
    assert rest == rest[..|rest| - 1] + [x];
  }

  /** Where a drain that has sent `sent`, leaving `rest`, stands when the RPOP
      numbered `|sent|` throws: a popped entry, if the RPOP took effect and
      there was one, is lost. */
  lemma DrainFaulted(q: seq<Record>, sent: seq<Record>, rest: seq<Record>, applied: bool)
    requires q == rest + DeliveryOrder(sent)
    ensures Drain(q, Some(PopFault(|sent|, applied)))
              == if applied && rest != []
                 then DrainResult(sent, [rest[|rest| - 1]], rest[..|rest| - 1], false)
                 else DrainResult(sent, [], rest, false)
  {
    var n := |sent|;
    assert rest == q[..|q| - n];
    assert DeliveryOrder(sent) == q[|q| - n..];
    DeliveryOrderInvolutive(sent);
    DeliveryOrderPrefix(q, n);
    if applied && rest != [] {
      assert q[|q| - n - 1..|q| - n] == [rest[|rest| - 1]];
    }
  }

  /** Where a drain that has sent `sent` and found the list empty stands. */
  lemma DrainEmptied(q: seq<Record>, sent: seq<Record>, fault: Option<PopFault>)
    requires q == DeliveryOrder(sent)
    requires fault.Some? ==> fault.value.at > |sent|
    ensures Drain(q, fault) == DrainResult(sent, [], [], true)
  {
    DeliveryOrderInvolutive(sent);
    DeliveryOrderPrefix(q, |q|);
  }

  /** The Redis client, restricted to the lists of this module. */
  class OfflineQueues {
    var lists: Lists

    constructor Init()
      ensures lists == map[]
    {
      lists := map[];
    }

    /** `redisClient.lPush(key, entry)`. */
    method LPush(key: string, e: Record)
      modifies this
      ensures lists == PushHead(old(lists), key, e)
    {
      lists := PushHead(lists, key, e);
    }

    /** `redisClient.rPop(key)`; `None` is Redis nil. */
    method RPop(key: string) returns (e: Option<Record>)
      modifies this
      ensures e == PopTail(old(lists), key).0 && lists == PopTail(old(lists), key).1
    {
      var res := PopTail(lists, key);
      e, lists := res.0, res.1;
    }
  }
}
