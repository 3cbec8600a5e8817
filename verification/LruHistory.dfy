/** What the cache means in terms of its operations: the unbounded store, and when each key was last named. */
module LruHistory {
  import opened Wrappers
  import opened LruModel
  import opened LruInclusion
  import opened Sets

  type History = seq<(Op, int)>

  predicate Names(op: Op, key: string) {
    (op.GetOp? || op.PutOp?) && op.key == key
  }

  /** The store a cache of unlimited size, that never forgets, would be. */
  function Ideal(ops: History): map<string, Item> {
    if ops == [] then map[] else
    var past, (op, now) := Ideal(ops[..|ops| - 1]), ops[|ops| - 1];
    match op
    case PutOp(key, value, ttl) => past[key := Item(key, value, Expiry(ttl, now))]
    case DeleteOp(key) => past - {key}
    case ClearOp => map[]
    case _ => past
  }

  /** When the key was last read or written, counting from one; zero if never. */
  function LastNamed(ops: History, key: string): nat {
    if ops == [] then 0
    else if Names(ops[|ops| - 1].0, key) then |ops|
    else LastNamed(ops[..|ops| - 1], key)
  }

  function Written(ops: History): set<string> {
    if ops == [] then {}
    else Written(ops[..|ops| - 1]) + (if ops[|ops| - 1].0.PutOp? then {ops[|ops| - 1].0.key} else {})
  }

  ghost predicate ClockRuns(ops: History) {
    forall i, j :: 0 <= i < j < |ops| ==> ops[i].1 <= ops[j].1
  }

  /** Most recently named first. */
  ghost predicate Ranked(items: seq<Item>, ops: History) {
    forall i, j :: 0 <= i < j < |items| ==> LastNamed(ops, items[i].key) > LastNamed(ops, items[j].key)
  }

  ghost predicate Current(items: seq<Item>, ops: History) {
    forall x :: x in items ==> x.key in Ideal(ops) && Ideal(ops)[x.key] == x
  }

  /** Whatever is live and never was evicted is there. */
  ghost predicate Complete(c: Cache, ops: History, now: int) {
    c.evictions == 0 ==> forall k :: k in Ideal(ops) && !Expired(Ideal(ops)[k], now) ==> k in Keys(c.items)
  }

  // ----- recency -----

  lemma {:induction false} NamedBefore(ops: History, key: string)
    ensures LastNamed(ops, key) <= |ops|
  {
    if ops != [] { NamedBefore(ops[..|ops| - 1], key); }
  }

  lemma {:induction false} RestrictRanked(items: seq<Item>, keys: set<string>, ops: History)
    requires Ranked(items, ops)
    ensures Ranked(Restrict(items, keys), ops)
  {
    if items != [] {
      var rest := items[1..];
      RestrictRanked(rest, keys, ops);
      RestrictMembers(rest, keys);
      forall x | x in Restrict(rest, keys) ensures LastNamed(ops, items[0].key) > LastNamed(ops, x.key) {
        assert x in rest;
      }
    }
  }

  /** Naming a key outside the list does not reorder the list. */
  lemma RankedLater(items: seq<Item>, ops: History, last: (Op, int))
    requires Ranked(items, ops) && forall x :: x in items ==> !Names(last.0, x.key)
    ensures Ranked(items, ops + [last])
  {
    assert (ops + [last])[..|ops|] == ops;
    forall i | 0 <= i < |items| ensures LastNamed(ops + [last], items[i].key) == LastNamed(ops, items[i].key) {
      assert items[i] in items;
    }
  }

  lemma RankedPush(x: Item, items: seq<Item>, ops: History, last: (Op, int))
    requires Ranked(items, ops) && x.key !in Keys(items) && Names(last.0, x.key)
    ensures Ranked([x] + items, ops + [last])
  {
    KeysMembers(items);
    RankedLater(items, ops, last);
    assert (ops + [last])[..|ops|] == ops;
    forall i | 0 <= i < |items| ensures LastNamed(ops + [last], items[i].key) < LastNamed(ops + [last], x.key) {
      assert items[i] in items;
      NamedBefore(ops, items[i].key);
    }
  }

  lemma RankedDistinct(items: seq<Item>, ops: History)
    requires Ranked(items, ops)
    ensures Distinct(items)
  {}

  /** The rest of the list keeps its order when a key is named, and so does the whole list with the key first. */
  lemma NamedRanked(c: Cache, ops: History, op: Op, now: int, x: Item)
    requires Ranked(c.items, ops) && (op.GetOp? || op.PutOp?) && x.key == op.key
    ensures Ranked(Without(c.items, op.key), ops + [(op, now)])
    ensures Ranked([x] + Without(c.items, op.key), ops + [(op, now)])
    ensures op.key !in Keys(c.items) ==> Without(c.items, op.key) == c.items
  {
    var rest := Without(c.items, op.key);
    RestrictRanked(c.items, Keys(c.items) - {op.key}, ops);
    WithoutKeys(c.items, op.key);
    KeysMembers(rest);
    RankedLater(rest, ops, (op, now));
    RankedPush(x, rest, ops, (op, now));
    if op.key !in Keys(c.items) { RestrictAll(c.items, Keys(c.items) - {op.key}); }
  }

  lemma CutRanked(items: seq<Item>, ops: History, n: nat)
    requires Ranked(items, ops) && n <= |items|
    ensures Ranked(items[..n], ops)
  {}

  /** Every operation keeps the list in the order the keys were last named. */
  lemma OpRanked(c: Cache, ops: History, op: Op, now: int)
    requires Ranked(c.items, ops)
    ensures Ranked(Do(c, op, now).0.items, ops + [(op, now)])
  {
    if op.PutOp? {
      var x := Item(op.key, op.value, Expiry(op.ttl, now));
      NamedRanked(c, ops, op, now, x);
      CutRanked([x] + Without(c.items, op.key), ops + [(op, now)], |Without(c.items, op.key)|);
    } else if op.GetOp? {
      var i := Find(c.items, op.key);
      NamedRanked(c, ops, op, now, if i < |c.items| then c.items[i] else Item(op.key, "", None));
    } else {
      RankedLater(c.items, ops, (op, now));
      if op.DeleteOp? { RestrictRanked(c.items, Keys(c.items) - {op.key}, ops + [(op, now)]); }
      if op.CleanupOp? { RestrictRanked(c.items, Fresh(c.items, now), ops + [(op, now)]); }
    }
  }

  /** After any history the cache holds its keys in the order they were last named, within its capacity. */
  lemma {:induction false} RecencyOrder(capacity: int, ops: History)
    ensures Ranked(Replay(New(capacity), ops).items, ops)
    ensures |Replay(New(capacity), ops).items| <= if capacity <= 0 then 1000 else capacity
    ensures Replay(New(capacity), ops).capacity == if capacity <= 0 then 1000 else capacity
    decreases |ops|
  {
    if ops != [] {
      var past, last := ops[..|ops| - 1], ops[|ops| - 1];
      RecencyOrder(capacity, past);
      OpRanked(Replay(New(capacity), past), past, last.0, last.1);
      assert past + [last] == ops;
      RankedDistinct(Replay(New(capacity), past).items, past);
      OpWithin(Replay(New(capacity), past), last.0, last.1);
    }
  }

  lemma OpWithin(c: Cache, op: Op, now: int)
    requires Distinct(c.items) && |c.items| <= c.capacity && 0 < c.capacity
    ensures |Do(c, op, now).0.items| <= Do(c, op, now).0.capacity == c.capacity
  {
    if op.CleanupOp? {
      RestrictMembers(c.items, Fresh(c.items, now));
    } else if !op.ClearOp? {
      WithoutLength(c.items, op.key);
    }
  }

  lemma LastIsOldest(items: seq<Item>, ops: History)
    requires Ranked(items, ops) && items != []
    ensures var last := items[|items| - 1].key;
            last in Keys(items) && forall k :: k in Keys(items) && k != last ==>
                LastNamed(ops, last) < LastNamed(ops, k)
  {
    var last := items[|items| - 1].key;
    forall k | k in Keys(items) && k != last ensures LastNamed(ops, last) < LastNamed(ops, k) {
      var i :| 0 <= i < |items| && items[i].key == k;
      assert i < |items| - 1;
    }
  }

  lemma PushedOut(x: Item, items: seq<Item>)
    requires Distinct(items) && items != [] && x.key !in Keys(items)
    ensures Keys(([x] + items)[..|items|]) == Keys(items) - {items[|items| - 1].key} + {x.key}
  {
    var kept, last := items[..|items| - 1], items[|items| - 1];
    assert ([x] + items)[..|items|] == [x] + kept;
    PushKeys(x, kept);
    assert Keys(kept) == Keys(items) - {last.key} by {
      forall k | k in Keys(items) - {last.key} ensures k in Keys(kept) {
        var i :| 0 <= i < |items| && items[i].key == k;
        assert kept[i].key == k;
      }
    }
  }

  lemma EvictsLast(c: Cache, ops: History, key: string, value: string, ttl: int, now: int)
    requires Ranked(c.items, ops) && |c.items| == c.capacity > 0 && key !in Keys(c.items)
    ensures var gone := c.items[|c.items| - 1].key;
            && gone in Keys(c.items) && Keys(Put(c, key, value, ttl, now).items) == Keys(c.items) - {gone} + {key}
            && forall k :: k in Keys(c.items) && k != gone ==> LastNamed(ops, gone) < LastNamed(ops, k)
  {
    RankedDistinct(c.items, ops);
    PushedOut(Item(key, value, Expiry(ttl, now)), c.items);
    LastIsOldest(c.items, ops);
  }

  /** A write of a new key to a full cache throws out exactly the key that went unnamed the longest, and that is never
      the key written. */
  lemma EvictsLeastRecent(capacity: int, ops: History, key: string, value: string, ttl: int, now: int)
    requires var c := Replay(New(capacity), ops); |c.items| == c.capacity && key !in Keys(c.items)
    ensures var c := Replay(New(capacity), ops);
            exists gone :: gone in Keys(c.items)
              && Keys(Put(c, key, value, ttl, now).items) == Keys(c.items) - {gone} + {key}
              && forall k :: k in Keys(c.items) && k != gone ==> LastNamed(ops, gone) < LastNamed(ops, k)
  {
    RecencyOrder(capacity, ops);
    EvictsLast(Replay(New(capacity), ops), ops, key, value, ttl, now);
  }

  // ----- contents -----

  lemma RestCurrent(c: Cache, ops: History, op: Op, now: int)
    requires Current(c.items, ops) && !op.ClearOp? && !op.CleanupOp?
    ensures Current(Without(c.items, op.key), ops + [(op, now)])
    ensures op.key !in Keys(c.items) || op.GetOp? ==> Current(c.items, ops + [(op, now)])
  {
    assert (ops + [(op, now)])[..|ops|] == ops;
    RestrictMembers(c.items, Keys(c.items) - {op.key});
    KeysMembers(c.items);
  }

  lemma CutCurrent(x: Item, rest: seq<Item>, ops: History, n: nat)
    requires Current(rest, ops) && x.key in Ideal(ops) && Ideal(ops)[x.key] == x && n <= |rest| + 1
    ensures Current(([x] + rest)[..n], ops)
  {
    assert forall y :: y in ([x] + rest)[..n] ==> y == x || y in rest;
  }

  lemma OpCurrent(c: Cache, ops: History, op: Op, now: int)
    requires Distinct(c.items) && Current(c.items, ops)
    ensures Current(Do(c, op, now).0.items, ops + [(op, now)])
  {
    var after := ops + [(op, now)];
    assert after[..|ops|] == ops;
    if op.CleanupOp? {
      RestrictMembers(c.items, Fresh(c.items, now));
    } else if !op.ClearOp? {
      RestCurrent(c, ops, op, now);
      if op.PutOp? {
        var x := Item(op.key, op.value, Expiry(op.ttl, now));
        CutCurrent(x, Without(c.items, op.key), after, |Without(c.items, op.key)| + 1);
        assert ([x] + Without(c.items, op.key))[..|Without(c.items, op.key)| + 1] == [x] + Without(c.items, op.key);
        if op.key !in Keys(c.items) {
          CutCurrent(x, c.items, after, |c.items|);
          CutCurrent(x, c.items, after, |c.items| + 1);
          assert ([x] + c.items)[..|c.items| + 1] == [x] + c.items;
        }
      }
    }
  }

  /** A key is dropped only by being deleted, cleared, found expired or evicted. */
  lemma OpComplete(c: Cache, ops: History, op: Op, was: int, now: int)
    requires Distinct(c.items) && Current(c.items, ops) && Complete(c, ops, was) && was <= now
    ensures Complete(Do(c, op, now).0, ops + [(op, now)], now)
  {
    var d, after := Do(c, op, now).0, ops + [(op, now)];
    assert after[..|ops|] == ops;
    if d.evictions == 0 && !op.ClearOp? {
      KeysMembers(c.items);
      KeysMembers(d.items);
      if op.CleanupOp? {
        RestrictKeys(c.items, Fresh(c.items, now));
        forall k | k in Ideal(after) && !Expired(Ideal(after)[k], now) ensures k in Keys(d.items) {
          FreshAt(c.items, k, now);
        }
      } else {
        WithoutKeys(c.items, op.key);
        WithoutLength(c.items, op.key);
        if !op.DeleteOp? { Pushed(c, op, now); }
      }
    }
  }

  /** Which keys a read or a write leaves, as long as nothing is evicted. */
  lemma Pushed(c: Cache, op: Op, now: int)
    requires Distinct(c.items) && (op.GetOp? || op.PutOp?) && Do(c, op, now).0.evictions == c.evictions
    ensures op.PutOp? ==> Keys(Do(c, op, now).0.items) == Keys(c.items) + {op.key}
    ensures op.GetOp? ==> Keys(c.items) - {op.key} <= Keys(Do(c, op, now).0.items)
    ensures op.GetOp? && op.key in Keys(c.items) && !Expired(c.items[Find(c.items, op.key)], now) ==>
              op.key in Keys(Do(c, op, now).0.items)
  {
    WithoutKeys(c.items, op.key);
    if op.PutOp? {
      PushKeys(Item(op.key, op.value, Expiry(op.ttl, now)), c.items);
      PushKeys(Item(op.key, op.value, Expiry(op.ttl, now)), Without(c.items, op.key));
    } else if op.key in Keys(c.items) {
      PushKeys(c.items[Find(c.items, op.key)], Without(c.items, op.key));
    }
  }

  lemma ReplaySnoc(c: Cache, past: History, last: (Op, int))
    ensures Replay(c, past + [last]) == Do(Replay(c, past), last.0, last.1).0
  {
    assert (past + [last])[..|past|] == past;
  }

  lemma StepCurrent(capacity: int, past: History, last: (Op, int))
    requires Current(Replay(New(capacity), past).items, past)
    ensures Current(Replay(New(capacity), past + [last]).items, past + [last])
  {
    var c := Replay(New(capacity), past);
    RecencyOrder(capacity, past);
    RankedDistinct(c.items, past);
    OpCurrent(c, past, last.0, last.1);
    ReplaySnoc(New(capacity), past, last);
  }

  lemma {:induction false} ContentsCurrent(capacity: int, ops: History)
    ensures Current(Replay(New(capacity), ops).items, ops)
    decreases |ops|
  {
    if ops != [] {
      var past, last := ops[..|ops| - 1], ops[|ops| - 1];
      ContentsCurrent(capacity, past);
      StepCurrent(capacity, past, last);
      assert past + [last] == ops;
    }
  }

  lemma CompleteLater(c: Cache, ops: History, was: int, now: int)
    requires Complete(c, ops, was) && was <= now
    ensures Complete(c, ops, now)
  {}

  lemma StepComplete(capacity: int, past: History, last: (Op, int))
    requires Complete(Replay(New(capacity), past), past, last.1)
    ensures Complete(Replay(New(capacity), past + [last]), past + [last], last.1)
  {
    ContentsCurrent(capacity, past);
    RecencyOrder(capacity, past);
    RankedDistinct(Replay(New(capacity), past).items, past);
    OpComplete(Replay(New(capacity), past), past, last.0, last.1, last.1);
    assert (past + [last])[..|past|] == past;
  }

  lemma {:induction false} ContentsComplete(capacity: int, ops: History, now: int)
    requires ClockRuns(ops) && forall i :: 0 <= i < |ops| ==> ops[i].1 <= now
    ensures Complete(Replay(New(capacity), ops), ops, now)
    decreases |ops|
  {
    if ops != [] {
      var past, last := ops[..|ops| - 1], ops[|ops| - 1];
      ContentsComplete(capacity, past, last.1);
      StepComplete(capacity, past, last);
      assert past + [last] == ops;
      CompleteLater(Replay(New(capacity), ops), ops, last.1, now);
    }
  }

  /** A read that answers gives the value last written to the key, not deleted since and not expired. */
  lemma NeverStale(capacity: int, ops: History, key: string, now: int)
    ensures var answer := Get(Replay(New(capacity), ops), key, now).1;
            answer.Some? ==>
              key in Ideal(ops) && !Expired(Ideal(ops)[key], now) && answer.value == Ideal(ops)[key].value
  {
    ContentsCurrent(capacity, ops);
  }

  /** As long as nothing was evicted, a read answers exactly when the store without a bound would. */
  lemma ExactUntilEviction(capacity: int, ops: History, key: string, now: int)
    requires ClockRuns(ops + [(GetOp(key), now)])
    requires Replay(New(capacity), ops).evictions == 0
    ensures Get(Replay(New(capacity), ops), key, now).1 ==
            if key in Ideal(ops) && !Expired(Ideal(ops)[key], now) then Some(Ideal(ops)[key].value) else None
  {
    var after := ops + [(GetOp(key), now)];
    assert forall i :: 0 <= i < |ops| ==> ops[i] == after[i];
    assert after[|ops|] == (GetOp(key), now);
    ContentsComplete(capacity, ops, now);
    NeverStale(capacity, ops, key, now);
    var c := Replay(New(capacity), ops);
    ContentsCurrent(capacity, ops);
    if key in Keys(c.items) {
      assert c.items[Find(c.items, key)] in c.items;
    }
  }

  // ----- expiry -----

  predicate Overwrites(op: Op, key: string) {
    op.ClearOp? || ((op.PutOp? || op.DeleteOp?) && op.key == key)
  }

  /** Operation i writes the key, and nothing since has written, deleted or cleared it. */
  ghost predicate LastWrite(ops: History, key: string, i: nat) {
    && i < |ops| && ops[i].0.PutOp? && ops[i].0.key == key
    && forall j :: i < j < |ops| ==> !Overwrites(ops[j].0, key)
  }

  lemma LastWriteBefore(ops: History, key: string, i: nat)
    requires LastWrite(ops, key, i) && i < |ops| - 1
    ensures LastWrite(ops[..|ops| - 1], key, i) && !Overwrites(ops[|ops| - 1].0, key)
  {
    assert forall j :: 0 <= j < |ops| - 1 ==> ops[..|ops| - 1][j] == ops[j];
  }

  /** The store without a bound holds what was last written, with the moment of the write plus the time to live. */
  lemma {:induction false} IdealHolds(ops: History, key: string, i: nat)
    requires LastWrite(ops, key, i)
    ensures var (put, t) := ops[i];
            && key in Ideal(ops) && Ideal(ops)[key].key == key && Ideal(ops)[key].value == put.value
            && forall now :: Expired(Ideal(ops)[key], now) <==> put.ttl > 0 && now > t + put.ttl
    decreases |ops|
  {
    if i < |ops| - 1 {
      LastWriteBefore(ops, key, i);
      IdealHolds(ops[..|ops| - 1], key, i);
    }
  }

  lemma OpKeeps(c: Cache, op: Op, key: string, now: int)
    requires Distinct(c.items) && key in Keys(c.items) && !Expired(c.items[Find(c.items, key)], now)
    requires !Overwrites(op, key) && Do(c, op, now).0.evictions == c.evictions
    ensures key in Keys(Do(c, op, now).0.items)
  {
    if op.CleanupOp? {
      RestrictKeys(c.items, Fresh(c.items, now));
      FreshAt(c.items, key, now);
    } else if op.DeleteOp? {
      WithoutKeys(c.items, op.key);
    } else {
      Pushed(c, op, now);
    }
  }

  lemma EvictionsGrow(c: Cache, op: Op, now: int)
    requires !op.ClearOp?
    ensures c.evictions <= Do(c, op, now).0.evictions
  {}

  lemma {:induction false} EvictionsSince(c: Cache, ops: History, key: string, i: nat)
    requires LastWrite(ops, key, i)
    ensures Replay(c, ops[..i + 1]).evictions <= Replay(c, ops).evictions
    decreases |ops|
  {
    if i < |ops| - 1 {
      var past, last := ops[..|ops| - 1], ops[|ops| - 1];
      LastWriteBefore(ops, key, i);
      EvictionsSince(c, past, key, i);
      assert past[..i + 1] == ops[..i + 1];
      EvictionsGrow(Replay(c, past), last.0, last.1);
    } else {
      assert ops[..i + 1] == ops;
    }
  }

  /** A write is in the cache right after. */
  lemma PutHeld(c: Cache, key: string, value: string, ttl: int, now: int)
    requires 0 < c.capacity && |c.items| <= c.capacity
    ensures key in Keys(Put(c, key, value, ttl, now).items)
  {
    assert Put(c, key, value, ttl, now).items[0].key == key;
  }

  /** What is written stays until it expires, if nothing since evicts and it is not deleted or cleared. */
  lemma {:induction false} KeptUntilExpiry(capacity: int, ops: History, key: string, i: nat, now: int)
    requires LastWrite(ops, key, i) && ClockRuns(ops) && ops[|ops| - 1].1 <= now
    requires Replay(New(capacity), ops).evictions == Replay(New(capacity), ops[..i + 1]).evictions
    ensures key in Ideal(ops) && (!Expired(Ideal(ops)[key], now) ==> key in Keys(Replay(New(capacity), ops).items))
    decreases |ops|
  {
    IdealHolds(ops, key, i);
    var past, last := ops[..|ops| - 1], ops[|ops| - 1];
    var c := Replay(New(capacity), past);
    RecencyOrder(capacity, past);
    if i < |past| {
      LastWriteBefore(ops, key, i);
      EvictionsSince(New(capacity), past, key, i);
      EvictionsGrow(c, last.0, last.1);
      assert past[..i + 1] == ops[..i + 1];
      assert ops[|past| - 1] == past[|past| - 1] && ClockRuns(past);
      KeptUntilExpiry(capacity, past, key, i, last.1);
      if !Expired(Ideal(ops)[key], now) { StillKept(capacity, past, last, key); }
    } else {
      PutHeld(c, key, last.0.value, last.0.ttl, last.1);
    }
  }

  lemma StillKept(capacity: int, past: History, last: (Op, int), key: string)
    requires key in Ideal(past) && !Expired(Ideal(past)[key], last.1)
    requires key in Keys(Replay(New(capacity), past).items)
    requires !Overwrites(last.0, key)
    requires Do(Replay(New(capacity), past), last.0, last.1).0.evictions == Replay(New(capacity), past).evictions
    ensures key in Keys(Do(Replay(New(capacity), past), last.0, last.1).0.items)
  {
    var c := Replay(New(capacity), past);
    ContentsCurrent(capacity, past);
    RecencyOrder(capacity, past);
    RankedDistinct(c.items, past);
    assert c.items[Find(c.items, key)] in c.items;
    OpKeeps(c, last.0, key, last.1);
  }

  /** A value written at time t, and not evicted, written over, deleted or cleared since, is read back until the time to
      live has passed and not after; a cleanup drops it in exactly the other case. A time to live of zero or less never
      passes. */
  lemma ReadsUntilExpiry(capacity: int, ops: History, key: string, i: nat, now: int)
    requires LastWrite(ops, key, i) && ClockRuns(ops) && ops[|ops| - 1].1 <= now
    requires Replay(New(capacity), ops).evictions == Replay(New(capacity), ops[..i + 1]).evictions
    ensures var (put, t), c := ops[i], Replay(New(capacity), ops);
            && Get(c, key, now).1 == (if put.ttl <= 0 || now <= t + put.ttl then Some(put.value) else None)
            && (key in Keys(Cleanup(c, now).items) <==> put.ttl <= 0 || now <= t + put.ttl)
  {
    var c := Replay(New(capacity), ops);
    IdealHolds(ops, key, i);
    KeptUntilExpiry(capacity, ops, key, i, now);
    ContentsCurrent(capacity, ops);
    RestrictKeys(c.items, Fresh(c.items, now));
    if key in Keys(c.items) {
      assert c.items[Find(c.items, key)] in c.items;
      RecencyOrder(capacity, ops);
      RankedDistinct(c.items, ops);
      FreshAt(c.items, key, now);
    }
  }

  /** A cache with room for every key ever written never evicts. */
  lemma {:induction false} RoomyNeverEvicts(capacity: int, ops: History)
    requires |Written(ops)| <= New(capacity).capacity
    ensures Replay(New(capacity), ops).evictions == 0
    ensures Keys(Replay(New(capacity), ops).items) <= Written(ops)
    decreases |ops|
  {
    if ops != [] {
      var past, last := ops[..|ops| - 1], ops[|ops| - 1];
      assert Written(past) <= Written(ops);
      SubsetSize(Written(past), Written(ops));
      RoomyNeverEvicts(capacity, past);
      RecencyOrder(capacity, past);
      var c := Replay(New(capacity), past);
      RankedDistinct(c.items, past);
      RoomForOp(c, last.0, last.1, Written(ops));
    }
  }

  lemma {:induction false} DistinctCount(items: seq<Item>)
    requires Distinct(items)
    ensures |Keys(items)| == |items|
  {
    if items == [] {
      assert Keys(items) == {};
    } else {
      DistinctCount(items[1..]);
      assert items == [items[0]] + items[1..];
      PushKeys(items[0], items[1..]);
    }
  }

  lemma RoomForOp(c: Cache, op: Op, now: int, written: set<string>)
    requires Distinct(c.items) && c.evictions == 0 && Keys(c.items) <= written && |written| <= c.capacity
    requires op.PutOp? ==> op.key in written
    ensures Do(c, op, now).0.evictions == 0 && Keys(Do(c, op, now).0.items) <= written
  {
    DistinctCount(c.items);
    if op.CleanupOp? {
      RestrictKeys(c.items, Fresh(c.items, now));
    } else if !op.ClearOp? {
      WithoutKeys(c.items, op.key);
      if op.PutOp? {
        if op.key !in Keys(c.items) { SubsetSize(Keys(c.items) + {op.key}, written); }
        Pushed(c, op, now);
      } else if op.GetOp? && op.key in Keys(c.items) {
        PushKeys(c.items[Find(c.items, op.key)], Without(c.items, op.key));
      }
    }
  }

  // ----- counters -----

  /** The reads since the cache was last cleared. */
  function ReadsCounted(ops: History): nat {
    if ops == [] then 0 else
    match ops[|ops| - 1].0
    case ClearOp => 0
    case GetOp(_) => ReadsCounted(ops[..|ops| - 1]) + 1
    case _ => ReadsCounted(ops[..|ops| - 1])
  }

  /** Every read is counted once, as a hit or as a miss. */
  lemma {:induction false} CountersAddUp(capacity: int, ops: History)
    ensures var c := Replay(New(capacity), ops); c.hits + c.misses == ReadsCounted(ops)
    decreases |ops|
  {
    if ops != [] { CountersAddUp(capacity, ops[..|ops| - 1]); }
  }
}
