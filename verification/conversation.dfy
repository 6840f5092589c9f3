/**
 * The conversation query of src/app.ts (and its copy in
 * src/controllers/messageController.ts): `Message.find` with an `$or` of the
 * two directions between the two users, then `.sort({ timestamp: 1 })`;
 * an exception from the query is swallowed and yields `[]`.
 */
module Conversation {
  import opened Records

  /** The record goes from `a` to `b` or from `b` to `a`. */
  predicate Between(r: Record, a: string, b: string) {
    (r.from == a && r.to == b) || (r.from == b && r.to == a)
  }

  /** Non-decreasing by timestamp. */
  predicate SortedByTime(s: seq<Record>) {
    forall i, j :: 0 <= i < j < |s| ==> s[i].timestamp <= s[j].timestamp
  }

  /** The records of `records`, in store order, that the `$or` filter matches. */
  function Filter(records: seq<Record>, a: string, b: string): (r: seq<Record>)
    ensures forall x :: x in r <==> x in records && Between(x, a, b)
    ensures |r| <= |records|
  {
    if records == [] then []
    else
      var tail := Filter(records[1..], a, b);
      if Between(records[0], a, b) then [records[0]] + tail else tail
  }

  /** A bound that holds of every record of `s` and of `x` holds of every
      record of a sequence with the same records as `s` plus `x`. */
  lemma BoundCarries(t: seq<Record>, s: seq<Record>, x: Record, lo: Timestamp)
    requires multiset(t) == multiset(s) + multiset{x}
    requires forall i :: 0 <= i < |s| ==> lo <= s[i].timestamp
    requires lo <= x.timestamp
    ensures forall k :: 0 <= k < |t| ==> lo <= t[k].timestamp
  {
    forall k | 0 <= k < |t| ensures lo <= t[k].timestamp {
      assert t[k] in multiset(t);
      if t[k] != x {
        assert t[k] in multiset(s);
      }
    }
  }

  /** A suffix of a sorted sequence is sorted. */
  lemma SortedTail(s: seq<Record>)
    requires SortedByTime(s) && s != []
    ensures SortedByTime(s[1..])
  {
    forall i, j | 0 <= i < j < |s| - 1 ensures s[1..][i].timestamp <= s[1..][j].timestamp {
      assert s[1..][i] == s[i + 1] && s[1..][j] == s[j + 1];
    }
  }

  /** A record no newer than any record of a sorted sequence can head it. */
  lemma SortedCons(y: Record, t: seq<Record>)
    requires SortedByTime(t)
    requires forall k :: 0 <= k < |t| ==> y.timestamp <= t[k].timestamp
    ensures SortedByTime([y] + t)
  {
    var u := [y] + t;
    forall i, j | 0 <= i < j < |u| ensures u[i].timestamp <= u[j].timestamp {
      assert u[j] == t[j - 1];
      if i > 0 {
        assert u[i] == t[i - 1];
      }
    }
  }

  /** Places `x` after every record of `s` that is strictly older and before the rest. */
  function Insert(x: Record, s: seq<Record>): (r: seq<Record>)
    requires SortedByTime(s)
    ensures SortedByTime(r)
    ensures multiset(r) == multiset(s) + multiset{x}
  {
    if s == [] || x.timestamp <= s[0].timestamp then
      SortedCons(x, s);
      [x] + s
    else
      SortedTail(s);
      var t := Insert(x, s[1..]);
      assert s == [s[0]] + s[1..];
      BoundCarries(t, s[1..], x, s[0].timestamp);
      SortedCons(s[0], t);
      [s[0]] + t
  }

  /** Ascending sort by timestamp; records with equal timestamps keep their order. */
  function SortByTime(s: seq<Record>): (r: seq<Record>)
    ensures SortedByTime(r)
    ensures multiset(r) == multiset(s)
  {
    if s == [] then []
    else
      assert s == [s[0]] + s[1..];
      Insert(s[0], SortByTime(s[1..]))
  }

  /** `getConversation(contact, username)`, with `queryFails` standing for an
      exception thrown by the store. */
  function GetConversation(records: seq<Record>, contact: string, username: string, queryFails: bool): (r: seq<Record>)
    ensures queryFails ==> r == []
    ensures !queryFails ==> SortedByTime(r)
    ensures !queryFails ==> multiset(r) == multiset(Filter(records, username, contact))
    ensures !queryFails ==> forall x :: x in r <==> x in records && Between(x, username, contact)
  {
    if queryFails then []
    else
      var r := SortByTime(Filter(records, username, contact));
      assert forall x :: x in r <==> x in multiset(r);
      r
  }

  /** Write-ahead pays off: a stored record is part of the conversation of its
      sender and recipient, asked from either side, whether it was delivered or not. */
  lemma StoredRecordInConversation(records: seq<Record>, r: Record)
    requires r in records
    ensures r in GetConversation(records, r.to, r.from, false)
    ensures r in GetConversation(records, r.from, r.to, false)
  {
  }

  /** The `$or` filter is symmetric in the two users. */
  lemma {:induction false} FilterSymmetric(records: seq<Record>, a: string, b: string)
    ensures Filter(records, a, b) == Filter(records, b, a)
  {
    if records != [] {
      FilterSymmetric(records[1..], a, b);
    }
  }

  /** Either party asking gets the same conversation. */
  lemma ConversationSymmetric(records: seq<Record>, a: string, b: string, queryFails: bool)
    ensures GetConversation(records, a, b, queryFails) == GetConversation(records, b, a, queryFails)
  {
    FilterSymmetric(records, a, b);
  }

  /** A record that is persisted later never changes the conversation unless it
      belongs to it; otherwise it joins it. */
  lemma {:induction false} FilterAppend(records: seq<Record>, x: Record, a: string, b: string)
    ensures Filter(records + [x], a, b) == Filter(records, a, b) + (if Between(x, a, b) then [x] else [])
  {
    if records == [] {
      assert records + [x] == [x];
    } else {
      assert (records + [x])[1..] == records[1..] + [x];
      FilterAppend(records[1..], x, a, b);
    }
  }

  /** The filter keeps each matching record as many times as the store holds
      it, and no other record. */
  lemma {:induction false} FilterCount(records: seq<Record>, a: string, b: string, x: Record)
    ensures multiset(Filter(records, a, b))[x] == if Between(x, a, b) then multiset(records)[x] else 0
  {
    if records != [] {
      assert records == [records[0]] + records[1..];
      FilterCount(records[1..], a, b, x);
    }
  }
}
