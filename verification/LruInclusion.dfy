/** Two caches of different capacity fed the same operations: the smaller is always part of the larger. */
module LruInclusion {
  import opened Wrappers
  import opened LruModel

  /** List a is list b with some keys left out. */
  ghost predicate Part(a: seq<Item>, b: seq<Item>) {
    Distinct(b) && a == Restrict(b, Keys(a))
  }

  ghost predicate Included(a: Cache, b: Cache) {
    && Part(a.items, b.items) && 0 < a.capacity <= b.capacity
    && |a.items| <= a.capacity && |b.items| <= b.capacity
    && |b.items| - |a.items| <= b.capacity - a.capacity
  }

  lemma PartKeys(a: seq<Item>, b: seq<Item>)
    requires Part(a, b)
    ensures Distinct(a) && Keys(a) <= Keys(b) && forall x :: x in a ==> x in b
  {
    RestrictDistinct(b, Keys(a));
    RestrictKeys(b, Keys(a));
    RestrictMembers(b, Keys(a));
  }

  lemma PartRestrict(a: seq<Item>, b: seq<Item>, s: set<string>, t: set<string>)
    requires Part(a, b) && Keys(a) * s == Keys(a) * t
    ensures Part(Restrict(a, s), Restrict(b, t))
  {
    RestrictDistinct(b, t);
    RestrictTwice(b, Keys(a), s);
    RestrictKeys(a, s);
    RestrictTwice(b, t, Keys(a) * s);
    assert t * (Keys(a) * s) == Keys(a) * s;
  }

  lemma PartWithout(a: seq<Item>, b: seq<Item>, key: string)
    requires Part(a, b)
    ensures Part(Without(a, key), Without(b, key))
  {
    PartKeys(a, b);
    PartRestrict(a, b, Keys(a) - {key}, Keys(b) - {key});
  }

  /** Only the larger list has the key. */
  lemma PartWithoutOther(a: seq<Item>, b: seq<Item>, key: string)
    requires Part(a, b) && key !in Keys(a)
    ensures Part(a, Without(b, key))
  {
    PartWithout(a, b, key);
    assert Keys(a) - {key} == Keys(a);
    RestrictAll(a, Keys(a));
  }

  lemma WithoutKeys(b: seq<Item>, key: string)
    ensures Keys(Without(b, key)) == Keys(b) - {key}
  {
    RestrictKeys(b, Keys(b) - {key});
  }

  lemma PushKeys(x: Item, a: seq<Item>)
    ensures Keys([x] + a) == {x.key} + Keys(a)
  {
    KeysMembers(a);
    KeysMembers([x] + a);
    assert x in [x] + a;
    forall y | y in a ensures y in [x] + a {}
  }

  lemma PushDistinct(x: Item, b: seq<Item>)
    requires Distinct(b) && x.key !in Keys(b)
    ensures Distinct([x] + b)
  {
    KeysMembers(b);
  }

  lemma PartPush(a: seq<Item>, b: seq<Item>, x: Item)
    requires Part(a, b) && x.key !in Keys(b)
    ensures Part([x] + a, [x] + b)
  {
    PushDistinct(x, b);
    PushKeys(x, a);
    RestrictConcat([x], b, Keys([x] + a));
    assert Restrict([x], Keys([x] + a)) == [x];
    KeysMembers(b);
    RestrictSame(b, Keys([x] + a), Keys(a));
  }

  lemma PartPushOther(a: seq<Item>, b: seq<Item>, x: Item)
    requires Part(a, b) && x.key !in Keys(b)
    ensures Part(a, [x] + b)
  {
    PushDistinct(x, b);
    PartKeys(a, b);
    RestrictConcat([x], b, Keys(a));
  }

  lemma Halves(a: seq<Item>)
    requires a != []
    ensures a == a[..|a| - 1] + [a[|a| - 1]] && Keys(a) == Keys(a[..|a| - 1]) + {a[|a| - 1].key}
    ensures Distinct(a) ==> Distinct(a[..|a| - 1]) && a[|a| - 1].key !in Keys(a[..|a| - 1])
  {
    var front, last := a[..|a| - 1], a[|a| - 1];
    KeysMembers(a);
    KeysMembers(front);
    forall x | x in a ensures x in front || x == last {
      assert a == front + [last];
    }
  }

  lemma PartTrimSmall(a: seq<Item>, b: seq<Item>)
    requires Part(a, b) && a != []
    ensures Part(a[..|a| - 1], b)
  {
    var front := a[..|a| - 1];
    PartKeys(a, b);
    Halves(a);
    RestrictConcat(front, [a[|a| - 1]], Keys(front));
    RestrictAll(front, Keys(front));
    RestrictTwice(b, Keys(a), Keys(front));
    assert Keys(a) * Keys(front) == Keys(front);
  }

  lemma PartTrimLarge(a: seq<Item>, b: seq<Item>)
    requires Part(a, b) && b != [] && b[|b| - 1].key !in Keys(a)
    ensures Part(a, b[..|b| - 1])
  {
    Halves(b);
    RestrictConcat(b[..|b| - 1], [b[|b| - 1]], Keys(a));
  }

  /** If the larger list's last item is in the smaller list, it is last there too. */
  lemma SameLast(a: seq<Item>, b: seq<Item>)
    requires Part(a, b) && b != [] && b[|b| - 1].key in Keys(a)
    ensures a != [] && a[|a| - 1] == b[|b| - 1]
  {
    Halves(b);
    RestrictConcat(b[..|b| - 1], [b[|b| - 1]], Keys(a));
    assert Restrict([b[|b| - 1]], Keys(a)) == [b[|b| - 1]];
  }

  /** When both lists lose their last item, the larger one loses none that the smaller one keeps. */
  lemma PartTrimBoth(a: seq<Item>, b: seq<Item>)
    requires Part(a, b) && a != [] && b != []
    ensures Part(a[..|a| - 1], b[..|b| - 1])
  {
    var front := a[..|a| - 1];
    PartKeys(a, b);
    PartTrimSmall(a, b);
    Halves(a);
    if b[|b| - 1].key in Keys(a) { SameLast(a, b); }
    PartTrimLarge(front, b);
  }

  /** The larger cache overflows only if the smaller one does. */
  lemma TrimIncluded(a: Cache, b: Cache)
    requires Part(a.items, b.items) && 0 < a.capacity <= b.capacity
    requires |a.items| <= a.capacity + 1 && |b.items| <= b.capacity + 1
    requires |b.items| - |a.items| <= b.capacity - a.capacity
    ensures Included(Trim(a), Trim(b))
  {
    if |b.items| > b.capacity {
      PartTrimBoth(a.items, b.items);
    } else if |a.items| > a.capacity {
      PartTrimSmall(a.items, b.items);
    }
  }

  // ----- one operation -----

  lemma WithoutLength(b: seq<Item>, key: string)
    requires Distinct(b)
    ensures |Without(b, key)| == |b| - (if key in Keys(b) then 1 else 0)
  {
    KeysMembers(b);
    WithoutSize(b, Keys(b) - {key}, key);
  }

  /** Both lists agree on the item of a key the smaller one has. */
  lemma SameItem(a: seq<Item>, b: seq<Item>, key: string)
    requires Part(a, b) && key in Keys(a)
    ensures key in Keys(b) && a[Find(a, key)] == b[Find(b, key)]
  {
    PartKeys(a, b);
    assert a[Find(a, key)] in a;
  }

  /** The key's item moves to the front of both lists, or of the larger only. */
  lemma MoveIncluded(a: Cache, b: Cache, key: string)
    requires Included(a, b) && key in Keys(b.items)
    ensures var x := b.items[Find(b.items, key)];
            if key in Keys(a.items)
            then Included(a.(items := [x] + Without(a.items, key)), b.(items := [x] + Without(b.items, key)))
            else Included(a, b.(items := [x] + Without(b.items, key)))
  {
    PartKeys(a.items, b.items);
    WithoutLength(a.items, key);
    WithoutLength(b.items, key);
    WithoutKeys(b.items, key);
    if key in Keys(a.items) {
      PartWithout(a.items, b.items, key);
      PartPush(Without(a.items, key), Without(b.items, key), b.items[Find(b.items, key)]);
    } else {
      PartWithoutOther(a.items, b.items, key);
      PartPushOther(a.items, Without(b.items, key), b.items[Find(b.items, key)]);
    }
  }

  lemma DropIncluded(a: Cache, b: Cache, key: string)
    requires Included(a, b)
    ensures Included(a.(items := Without(a.items, key)), b.(items := Without(b.items, key)))
    ensures key !in Keys(a.items) ==> Included(a, b.(items := Without(b.items, key)))
  {
    PartKeys(a.items, b.items);
    PartWithout(a.items, b.items, key);
    WithoutLength(a.items, key);
    WithoutLength(b.items, key);
    if key !in Keys(a.items) { PartWithoutOther(a.items, b.items, key); }
  }

  lemma GetIncluded(a: Cache, b: Cache, key: string, now: int)
    requires Included(a, b)
    ensures Included(Get(a, key, now).0, Get(b, key, now).0)
    ensures Get(a, key, now).1.Some? ==> Get(b, key, now).1 == Get(a, key, now).1
  {
    if key in Keys(a.items) { SameItem(a.items, b.items, key); }
    if key in Keys(b.items) {
      if Expired(b.items[Find(b.items, key)], now) {
        DropIncluded(a, b, key);
      } else {
        MoveIncluded(a, b, key);
      }
    } else {
      PartKeys(a.items, b.items);
    }
  }

  lemma PutIncluded(a: Cache, b: Cache, key: string, value: string, ttl: int, now: int)
    requires Included(a, b)
    ensures Included(Put(a, key, value, ttl, now), Put(b, key, value, ttl, now))
  {
    var item := Item(key, value, Expiry(ttl, now));
    PartKeys(a.items, b.items);
    WithoutLength(a.items, key);
    WithoutLength(b.items, key);
    WithoutKeys(b.items, key);
    if key in Keys(a.items) {
      PartWithout(a.items, b.items, key);
      PartPush(Without(a.items, key), Without(b.items, key), item);
    } else if key in Keys(b.items) {
      PartWithoutOther(a.items, b.items, key);
      PartPush(a.items, Without(b.items, key), item);
      TrimIncluded(a.(items := [item] + a.items), b.(items := [item] + Without(b.items, key)));
    } else {
      PartPush(a.items, b.items, item);
      TrimIncluded(a.(items := [item] + a.items), b.(items := [item] + b.items));
    }
  }

  lemma DeleteIncluded(a: Cache, b: Cache, key: string)
    requires Included(a, b)
    ensures Included(Delete(a, key).0, Delete(b, key).0)
  {
    DropIncluded(a, b, key);
  }

  lemma {:induction false} RestrictDrops(b: seq<Item>, s: set<string>, t: set<string>)
    ensures |Restrict(b, s)| - |Restrict(b, t * s)| <= |b| - |Restrict(b, t)|
  {
    if b != [] { RestrictDrops(b[1..], s, t); }
  }

  lemma FreshPart(a: seq<Item>, b: seq<Item>, now: int)
    requires Part(a, b)
    ensures Keys(a) * Fresh(a, now) == Keys(a) * Fresh(b, now)
  {
    PartKeys(a, b);
    forall k | k in Keys(a) ensures k in Fresh(a, now) <==> k in Fresh(b, now) {
      SameItem(a, b, k);
      FreshAt(a, k, now);
      FreshAt(b, k, now);
    }
  }

  lemma FreshAt(a: seq<Item>, key: string, now: int)
    requires Distinct(a) && key in Keys(a)
    ensures key in Fresh(a, now) <==> !Expired(a[Find(a, key)], now)
  {}

  lemma CleanupIncluded(a: Cache, b: Cache, now: int)
    requires Included(a, b)
    ensures Included(Cleanup(a, now), Cleanup(b, now))
  {
    FreshPart(a.items, b.items, now);
    PartRestrict(a.items, b.items, Fresh(a.items, now), Fresh(b.items, now));
    RestrictMembers(a.items, Fresh(a.items, now));
    RestrictMembers(b.items, Fresh(b.items, now));
    RestrictTwice(b.items, Keys(a.items), Fresh(a.items, now));
    RestrictDrops(b.items, Fresh(b.items, now), Keys(a.items));
  }

  lemma OpIncluded(a: Cache, b: Cache, op: Op, now: int)
    requires Included(a, b)
    ensures Included(Do(a, op, now).0, Do(b, op, now).0)
    ensures Do(a, op, now).1.Some? ==> Do(b, op, now).1 == Do(a, op, now).1
  {
    match op
    case GetOp(key) => GetIncluded(a, b, key, now);
    case PutOp(key, value, ttl) => PutIncluded(a, b, key, value, ttl, now);
    case DeleteOp(key) => DeleteIncluded(a, b, key);
    case ClearOp =>
    case CleanupOp => CleanupIncluded(a, b, now);
  }

  // ----- whole histories -----

  function Replay(c: Cache, ops: seq<(Op, int)>): Cache {
    if ops == [] then c else Do(Replay(c, ops[..|ops| - 1]), ops[|ops| - 1].0, ops[|ops| - 1].1).0
  }

  /** The value the last operation of the history returned. */
  function Answer(c: Cache, ops: seq<(Op, int)>): Option<string>
    requires ops != []
  {
    Do(Replay(c, ops[..|ops| - 1]), ops[|ops| - 1].0, ops[|ops| - 1].1).1
  }

  /** Inclusion: after any history, the smaller cache's recency list is the larger one's with keys left
      out, and whatever the smaller cache answers, the larger one answers too. */
  lemma {:induction false} Inclusion(small: int, large: int, ops: seq<(Op, int)>)
    requires New(small).capacity <= New(large).capacity
    ensures Included(Replay(New(small), ops), Replay(New(large), ops))
    ensures ops != [] && Answer(New(small), ops).Some? ==> Answer(New(large), ops) == Answer(New(small), ops)
    decreases |ops|
  {
    if ops != [] {
      var past, last := ops[..|ops| - 1], ops[|ops| - 1];
      Inclusion(small, large, past);
      OpIncluded(Replay(New(small), past), Replay(New(large), past), last.0, last.1);
    }
  }
}
