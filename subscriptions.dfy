/**
 * InMemorySubscriptionStorage: for each message type, the list of addresses that
 * subscribed to it, in subscription order. Subscribe adds an address only when it is
 * missing; Unsubscribe removes it with List.Remove, which takes out the first
 * occurrence only; a query concatenates the lists of the requested types.
 */
module Subscriptions {
  import opened Seqs

  /** A subscription key: MessageType, known by the type name it was built from. */
  datatype MessageType = MessageType(typeName: string)

  type Storage = map<MessageType, seq<string>>

  /** The list stored under `t`, or nothing. */
  function ListOf(st: Storage, t: MessageType): seq<string> {
    if t in st then st[t] else []
  }

  /** List.Remove: the list without the first occurrence of `x`, if any. */
  function RemoveFirst(l: seq<string>, x: string): (r: seq<string>)
  {
    if l == [] then []
    else if l[0] == x then l[1..]
    else [l[0]] + RemoveFirst(l[1..], x)
  }

  /** List.Remove keeps every other element and drops `x` from a duplicate-free list. */
  lemma {:induction false} RemoveFirstFacts(l: seq<string>, x: string, y: string)
    ensures y != x ==> (y in RemoveFirst(l, x) <==> y in l)
    ensures NoDup(l) ==> x !in RemoveFirst(l, x) && NoDup(RemoveFirst(l, x))
    ensures RemoveFirst(l, x) == l <==> x !in l
  {
    if l != [] {
      assert l == [l[0]] + l[1..];
      assert NoDup(l) ==> NoDup(l[1..]) by {
        if NoDup(l) {
          forall i, j | 0 <= i < j < |l[1..]| ensures l[1..][i] != l[1..][j] {
            assert l[1..][i] == l[i + 1] && l[1..][j] == l[j + 1];
          }
        }
      }
      assert NoDup(l) ==> l[0] !in l[1..] by {
        if NoDup(l) {
          forall k | 0 <= k < |l[1..]| ensures l[1..][k] != l[0] { assert l[1..][k] == l[k + 1]; }
        }
      }
      RemoveFirstFacts(l[1..], x, y);
      RemoveFirstFacts(l[1..], x, l[0]);
      if l[0] != x {
        var rest := RemoveFirst(l[1..], x);
        if NoDup(l) {
          forall i, j | 0 <= i < j < |[l[0]] + rest| ensures ([l[0]] + rest)[i] != ([l[0]] + rest)[j] {
            if i == 0 {
              assert ([l[0]] + rest)[j] == rest[j - 1];
              assert rest[j - 1] in rest;
            } else {
              assert ([l[0]] + rest)[i] == rest[i - 1] && ([l[0]] + rest)[j] == rest[j - 1];
            }
          }
        }
        if RemoveFirst(l, x) == l {
          assert rest == l[1..];
        }
      } else {
        assert |l[1..]| < |l|;
        assert RemoveFirst(l, x) != l;
      }
    }
  }

  /** One iteration of Subscribe's loop: the type's list gets the address unless it has it. */
  function SubscribeOne(st: Storage, d: string, t: MessageType): Storage {
    var l := ListOf(st, t);
    st[t := if d in l then l else l + [d]]
  }

  /** Subscribe: one iteration per listed type, in order. */
  function SubscribeAll(st: Storage, d: string, ts: seq<MessageType>): Storage
  {
    if ts == [] then st
    else SubscribeOne(SubscribeAll(st, d, ts[..|ts| - 1]), d, ts[|ts| - 1])
  }

  /** One iteration of Unsubscribe's loop: a known type's list loses its first occurrence of the address. */
  function UnsubscribeOne(st: Storage, d: string, t: MessageType): Storage {
    if t in st then st[t := RemoveFirst(st[t], d)] else st
  }

  function UnsubscribeAll(st: Storage, d: string, ts: seq<MessageType>): Storage
  {
    if ts == [] then st
    else UnsubscribeOne(UnsubscribeAll(st, d, ts[..|ts| - 1]), d, ts[|ts| - 1])
  }

  /** GetSubscriberServicesForMessage: the stored lists of the requested types, concatenated in request order. */
  function Subscribers(st: Storage, ts: seq<MessageType>): seq<string>
  {
    if ts == [] then []
    else Subscribers(st, ts[..|ts| - 1]) + ListOf(st, ts[|ts| - 1])
  }

  /** Every stored list is duplicate-free: what Subscribe keeps and Unsubscribe relies on. */
  predicate ListsDistinct(st: Storage) {
    forall t :: t in st ==> NoDup(st[t])
  }

  /**
   * After Subscribe every listed type is known and lists the address; the lists of
   * the other types are untouched; no other address is added to or dropped from any
   * list; duplicate-free lists stay duplicate-free.
   */
  lemma {:induction false} SubscribeAllFacts(st: Storage, d: string, ts: seq<MessageType>, k: MessageType, e: string)
    ensures var r := SubscribeAll(st, d, ts);
      (k in ts ==> k in r && d in r[k]) &&
      (k !in ts ==> (k in r <==> k in st) && ListOf(r, k) == ListOf(st, k)) &&
      (e != d ==> (e in ListOf(r, k) <==> e in ListOf(st, k))) &&
      (ListsDistinct(st) ==> ListsDistinct(r))
  {
    if ts != [] {
      var init := ts[..|ts| - 1];
      var t := ts[|ts| - 1];
      SubscribeAllFacts(st, d, init, k, e);
      var p := SubscribeAll(st, d, init);
      assert ts == init + [t];
      assert k in ts <==> k in init || k == t;
      if ListsDistinct(p) {
        var l := ListOf(p, t);
        forall u | u in SubscribeOne(p, d, t) ensures NoDup(SubscribeOne(p, d, t)[u]) {
          if u == t && d !in l {
            NoDupAppend(l, d);
          }
        }
      }
    }
  }

  /** Subscribing again to the same types changes nothing: Subscribe is idempotent. */
  lemma SubscribeIdempotent(st: Storage, d: string, ts: seq<MessageType>)
    ensures SubscribeAll(SubscribeAll(st, d, ts), d, ts) == SubscribeAll(st, d, ts)
  {
    var r := SubscribeAll(st, d, ts);
    forall k | k in ts ensures k in r && d in r[k] {
      SubscribeAllFacts(st, d, ts, k, d);
    }
    SubscribedIsFixed(r, d, ts);
  }

  /** Subscribing types that already list the address leaves the storage as it is. */
  lemma {:induction false} SubscribedIsFixed(r: Storage, d: string, ts: seq<MessageType>)
    requires forall k :: k in ts ==> k in r && d in r[k]
    ensures SubscribeAll(r, d, ts) == r
  {
    if ts != [] {
      var init := ts[..|ts| - 1];
      assert forall k :: k in init ==> k in ts;
      SubscribedIsFixed(r, d, init);
      assert ts[|ts| - 1] in ts;
    }
  }

  /**
   * After Unsubscribe, on duplicate-free lists, no listed type lists the address;
   * the set of known types is unchanged, so an unknown type is skipped; the lists of
   * unlisted types are untouched and no other address is dropped.
   */
  lemma {:induction false} UnsubscribeAllFacts(st: Storage, d: string, ts: seq<MessageType>, k: MessageType, e: string)
    ensures var r := UnsubscribeAll(st, d, ts);
      r.Keys == st.Keys &&
      (ListsDistinct(st) && k in ts ==> d !in ListOf(r, k)) &&
      (k !in ts ==> ListOf(r, k) == ListOf(st, k)) &&
      (e != d ==> (e in ListOf(r, k) <==> e in ListOf(st, k))) &&
      (ListsDistinct(st) ==> ListsDistinct(r))
  {
    if ts != [] {
      var init := ts[..|ts| - 1];
      var t := ts[|ts| - 1];
      UnsubscribeAllFacts(st, d, init, k, e);
      var p := UnsubscribeAll(st, d, init);
      assert ts == init + [t];
      assert k in ts <==> k in init || k == t;
      if t in p {
        RemoveFirstFacts(p[t], d, e);
        if ListsDistinct(p) {
          forall u | u in UnsubscribeOne(p, d, t) ensures NoDup(UnsubscribeOne(p, d, t)[u]) {
            if u == t {
              RemoveFirstFacts(p[t], d, e);
            }
          }
          if k in init && k != t {
            assert ListOf(UnsubscribeOne(p, d, t), k) == ListOf(p, k);
          }
        }
      }
    }
  }

  /** An address is among the subscribers exactly when one of the requested types lists it. */
  lemma {:induction false} SubscribersHas(st: Storage, ts: seq<MessageType>, x: string)
    ensures x in Subscribers(st, ts) <==> exists i :: 0 <= i < |ts| && x in ListOf(st, ts[i])
  {
    if ts != [] {
      var init := ts[..|ts| - 1];
      SubscribersHas(st, init, x);
      if x in Subscribers(st, init) {
        var i :| 0 <= i < |init| && x in ListOf(st, init[i]);
        assert ts[i] == init[i];
      }
      if exists i :: 0 <= i < |ts| && x in ListOf(st, ts[i]) {
        var i :| 0 <= i < |ts| && x in ListOf(st, ts[i]);
        if i < |init| {
          assert init[i] == ts[i];
        }
      }
    }
  }

  /** Types with no subscribers yield no address. */
  lemma {:induction false} SubscribersNone(st: Storage, ts: seq<MessageType>)
    requires forall i :: 0 <= i < |ts| ==> ListOf(st, ts[i]) == []
    ensures Subscribers(st, ts) == []
  {
    if ts != [] {
      var init := ts[..|ts| - 1];
      forall i | 0 <= i < |init| ensures ListOf(st, init[i]) == [] {
        assert init[i] == ts[i];
      }
      SubscribersNone(st, init);
    }
  }

  /** The query is a concatenation: asking for more types appends their lists. */
  lemma {:induction false} SubscribersConcat(st: Storage, a: seq<MessageType>, b: seq<MessageType>)
    ensures Subscribers(st, a + b) == Subscribers(st, a) + Subscribers(st, b)
  {
    if b == [] {
      assert a + b == a;
    } else {
      var init := b[..|b| - 1];
      SubscribersConcat(st, a, init);
      assert (a + b)[..|a + b| - 1] == a + init;
      assert (a + b)[|a + b| - 1] == b[|b| - 1];
    }
  }

  /** A subscription is seen by the next query, and an unsubscription ends it. */
  lemma SubscribeThenQuery(st: Storage, d: string, t: MessageType)
    ensures d in Subscribers(SubscribeAll(st, d, [t]), [t])
    ensures ListsDistinct(st) ==> d !in Subscribers(UnsubscribeAll(st, d, [t]), [t])
  {
    assert [t][..0] == [];
    assert Subscribers(SubscribeAll(st, d, [t]), [t]) == ListOf(SubscribeAll(st, d, [t]), t);
    UnsubscribeAllFacts(st, d, [t], t, d);
  }

  class InMemorySubscriptionStorage {
    var storage: Storage

    constructor ()
      ensures storage == map[]
    {
      storage := map[];
    }

    predicate Valid()
      reads this
    {
      ListsDistinct(storage)
    }

    method Subscribe(destinationService: string, messageTypes: seq<MessageType>)
      modifies this
      ensures storage == SubscribeAll(old(storage), destinationService, messageTypes)
      ensures old(Valid()) ==> Valid()
    {
      ghost var st := storage;
      var i := 0;
      while i < |messageTypes|
        invariant 0 <= i <= |messageTypes|
        invariant storage == SubscribeAll(st, destinationService, messageTypes[..i])
      {
        var m := messageTypes[i];
        if m !in storage {
          storage := storage[m := []];
        }
        if destinationService !in storage[m] {
          storage := storage[m := storage[m] + [destinationService]];
        }
        assert messageTypes[..i + 1][..i] == messageTypes[..i];
        i := i + 1;
      }
      assert messageTypes[..i] == messageTypes;
      if ListsDistinct(st) {
        forall k | k in storage ensures NoDup(storage[k]) {
          SubscribeAllFacts(st, destinationService, messageTypes, k, destinationService);
        }
      }
    }

    method Unsubscribe(destinationService: string, messageTypes: seq<MessageType>)
      modifies this
      ensures storage == UnsubscribeAll(old(storage), destinationService, messageTypes)
      ensures old(Valid()) ==> Valid()
    {
      ghost var st := storage;
      var i := 0;
      while i < |messageTypes|
        invariant 0 <= i <= |messageTypes|
        invariant storage == UnsubscribeAll(st, destinationService, messageTypes[..i])
      {
        var m := messageTypes[i];
        if m in storage {
          storage := storage[m := RemoveFirst(storage[m], destinationService)];
        }
        assert messageTypes[..i + 1][..i] == messageTypes[..i];
        i := i + 1;
      }
      assert messageTypes[..i] == messageTypes;
      if ListsDistinct(st) {
        forall k | k in storage ensures NoDup(storage[k]) {
          UnsubscribeAllFacts(st, destinationService, messageTypes, k, destinationService);
        }
      }
    }

    method GetSubscriberServicesForMessage(messageTypes: seq<MessageType>) returns (result: seq<string>)
      ensures result == Subscribers(storage, messageTypes)
      ensures forall x :: x in result <==> exists i :: 0 <= i < |messageTypes| && x in ListOf(storage, messageTypes[i])
    {
      result := [];
      var i := 0;
      while i < |messageTypes|
        invariant 0 <= i <= |messageTypes|
        invariant result == Subscribers(storage, messageTypes[..i])
      {
        var m := messageTypes[i];
        if m in storage {
          result := result + storage[m];
        }
        assert messageTypes[..i + 1][..i] == messageTypes[..i];
        i := i + 1;
      }
      assert messageTypes[..i] == messageTypes;
      forall x ensures x in result <==> exists i :: 0 <= i < |messageTypes| && x in ListOf(storage, messageTypes[i]) {
        SubscribersHas(storage, messageTypes, x);
      }
    }

    /** Init: nothing to prepare. */
    method Init()
    {
    }
  }
}
