/** The LRU cache with expiry, as a recency list: most recently used item first. */
module LruModel {
  import opened Wrappers

  datatype Item = Item(key: string, value: string, expires: Option<int>)

  datatype Cache = Cache(capacity: nat, items: seq<Item>, hits: nat, misses: nat, evictions: nat)

  function New(capacity: int): Cache {
    Cache(if capacity <= 0 then 1000 else capacity, [], 0, 0, 0)
  }

  predicate Expired(item: Item, now: int) {
    item.expires.Some? && now > item.expires.value
  }

  function Keys(items: seq<Item>): set<string> {
    set i | 0 <= i < |items| :: items[i].key
  }

  /** The items whose keys are in the set, in the same order. */
  function Restrict(items: seq<Item>, keys: set<string>): seq<Item> {
    if items == [] then [] else
    (if items[0].key in keys then [items[0]] else []) + Restrict(items[1..], keys)
  }

  function Without(items: seq<Item>, key: string): seq<Item> {
    Restrict(items, Keys(items) - {key})
  }

  /** The position of the key's item, or the number of items. */
  function Find(items: seq<Item>, key: string): (i: nat)
    ensures i <= |items|
    ensures i < |items| ==> items[i].key == key
    ensures forall j :: 0 <= j < i ==> items[j].key != key
    ensures i < |items| <==> key in Keys(items)
  {
    if items == [] then 0
    else if items[0].key == key then 0
    else
      assert key in Keys(items) <==> key in Keys(items[1..]) by {
        assert forall j :: 1 <= j < |items| ==> items[j] == items[1..][j - 1];
      }
      1 + Find(items[1..], key)
  }

  function Get(c: Cache, key: string, now: int): (Cache, Option<string>) {
    var i := Find(c.items, key);
    if i == |c.items| then (c.(misses := c.misses + 1), None)
    else if Expired(c.items[i], now) then (c.(items := Without(c.items, key), misses := c.misses + 1), None)
    else (c.(items := [c.items[i]] + Without(c.items, key), hits := c.hits + 1), Some(c.items[i].value))
  }

  function Expiry(ttl: int, now: int): Option<int> {
    if ttl > 0 then Some(now + ttl) else None
  }

  /** Evicts the last item if there is one too many. */
  function Trim(c: Cache): Cache {
    if |c.items| > c.capacity then c.(items := c.items[..|c.items| - 1], evictions := c.evictions + 1) else c
  }

  function Put(c: Cache, key: string, value: string, ttl: int, now: int): Cache {
    var item := Item(key, value, Expiry(ttl, now));
    if key in Keys(c.items) then c.(items := [item] + Without(c.items, key))
    else Trim(c.(items := [item] + c.items))
  }

  function Delete(c: Cache, key: string): (Cache, bool) {
    (c.(items := Without(c.items, key)), key in Keys(c.items))
  }

  function Clear(c: Cache): Cache {
    Cache(c.capacity, [], 0, 0, 0)
  }

  function Fresh(items: seq<Item>, now: int): set<string> {
    set i | 0 <= i < |items| && !Expired(items[i], now) :: items[i].key
  }

  function Cleanup(c: Cache, now: int): Cache {
    c.(items := Restrict(c.items, Fresh(c.items, now)))
  }

  datatype Op =
    | GetOp(key: string)
    | PutOp(key: string, value: string, ttl: int)
    | DeleteOp(key: string)
    | ClearOp
    | CleanupOp

  /** The cache after an operation at a moment, and the value returned, if any. */
  function Do(c: Cache, op: Op, now: int): (Cache, Option<string>) {
    match op
    case GetOp(key) => Get(c, key, now)
    case PutOp(key, value, ttl) => (Put(c, key, value, ttl, now), None)
    case DeleteOp(key) => (Delete(c, key).0, None)
    case ClearOp => (Clear(c), None)
    case CleanupOp => (Cleanup(c, now), None)
  }

  // ----- recency lists -----

  ghost predicate Distinct(items: seq<Item>) {
    forall i, j :: 0 <= i < j < |items| ==> items[i].key != items[j].key
  }

  lemma {:induction false} RestrictConcat(a: seq<Item>, b: seq<Item>, keys: set<string>)
    ensures Restrict(a + b, keys) == Restrict(a, keys) + Restrict(b, keys)
  {
    if a == [] {
      assert a + b == b;
    } else {
      assert (a + b)[1..] == a[1..] + b;
      RestrictConcat(a[1..], b, keys);
    }
  }

  lemma {:induction false} RestrictTwice(items: seq<Item>, keys: set<string>, more: set<string>)
    ensures Restrict(Restrict(items, keys), more) == Restrict(items, keys * more)
  {
    if items != [] {
      RestrictTwice(items[1..], keys, more);
      var head := if items[0].key in keys then [items[0]] else [];
      RestrictConcat(head, Restrict(items[1..], keys), more);
    }
  }

  /** Only the keys that occur matter. */
  lemma {:induction false} RestrictSame(items: seq<Item>, keys: set<string>, others: set<string>)
    requires forall i :: 0 <= i < |items| ==> (items[i].key in keys <==> items[i].key in others)
    ensures Restrict(items, keys) == Restrict(items, others)
  {
    if items != [] { RestrictSame(items[1..], keys, others); }
  }

  lemma {:induction false} RestrictAll(items: seq<Item>, keys: set<string>)
    requires Keys(items) <= keys
    ensures Restrict(items, keys) == items
  {
    if items != [] {
      assert items[0].key in Keys(items);
      assert Keys(items[1..]) <= Keys(items) by {
        forall k | k in Keys(items[1..]) ensures k in Keys(items) {
          var i :| 0 <= i < |items[1..]| && items[1..][i].key == k;
          assert items[i + 1].key == k;
        }
      }
      RestrictAll(items[1..], keys);
    }
  }

  /** Restriction keeps exactly the items with these keys, each as it was. */
  lemma {:induction false} RestrictMembers(items: seq<Item>, keys: set<string>)
    ensures forall x :: x in Restrict(items, keys) <==> x in items && x.key in keys
    ensures |Restrict(items, keys)| <= |items|
  {
    if items != [] {
      assert items == [items[0]] + items[1..];
      RestrictMembers(items[1..], keys);
    }
  }

  lemma KeysMembers(items: seq<Item>)
    ensures forall x :: x in items ==> x.key in Keys(items)
    ensures forall k :: k in Keys(items) ==> exists x :: x in items && x.key == k
  {
    forall k | k in Keys(items) ensures exists x :: x in items && x.key == k {
      var i :| 0 <= i < |items| && items[i].key == k;
      assert items[i] in items;
    }
  }

  lemma RestrictKeys(items: seq<Item>, keys: set<string>)
    ensures Keys(Restrict(items, keys)) == Keys(items) * keys
  {
    RestrictMembers(items, keys);
    KeysMembers(items);
    KeysMembers(Restrict(items, keys));
  }

  lemma {:induction false} RestrictDistinct(items: seq<Item>, keys: set<string>)
    requires Distinct(items)
    ensures Distinct(Restrict(items, keys))
  {
    if items != [] {
      RestrictDistinct(items[1..], keys);
      RestrictMembers(items[1..], keys);
      var rest := Restrict(items[1..], keys);
      forall x | x in rest ensures x.key != items[0].key {
        assert x in items[1..];
      }
    }
  }

  /** In a list of distinct keys, dropping one key drops exactly one item, if it is there. */
  lemma {:induction false} WithoutSize(items: seq<Item>, keys: set<string>, key: string)
    requires Distinct(items) && forall i :: 0 <= i < |items| ==> (items[i].key in keys <==> items[i].key != key)
    ensures |Restrict(items, keys)| == |items| - (if key in Keys(items) then 1 else 0)
  {
    if items != [] {
      assert key in Keys(items) <==> items[0].key == key || key in Keys(items[1..]) by {
        assert items == [items[0]] + items[1..];
        KeysMembers(items);
        KeysMembers(items[1..]);
      }
      if items[0].key == key {
        KeysMembers(items[1..]);
        RestrictAll(items[1..], keys);
      }
      WithoutSize(items[1..], keys, key);
    }
  }
}
