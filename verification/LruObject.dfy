/** The cache as it is built: a map from keys to nodes of a doubly linked list between two sentinels. */
module LruObject {
  import opened Wrappers
  import opened LruModel
  import opened LruInclusion
  import opened LruHistory
  import Seqs

  class Node {
    const key: string
    var value: string
    var expires: Option<int>
    var prev: Node?
    var next: Node?

    constructor (key: string, value: string, expires: Option<int>)
      ensures this.key == key && this.value == value && this.expires == expires
    {
      this.key, this.value, this.expires, prev, next := key, value, expires, null, null;
    }
  }

  // The predicates below quantify over small named predicates, so that they are used only where one is mentioned.

  ghost predicate Joined(chain: seq<Node>, i: nat)
    requires i + 1 < |chain|
    reads chain`prev, chain`next
  {
    chain[i].next == chain[i + 1] && chain[i + 1].prev == chain[i]
  }

  ghost predicate Differ(chain: seq<Node>, i: nat, j: nat)
    requires i < |chain| && j < |chain|
  {
    chain[i] != chain[j]
  }

  ghost predicate Unlike(chain: seq<Node>) {
    forall i: nat, j: nat {:trigger Differ(chain, i, j)} :: i < j < |chain| ==> Differ(chain, i, j)
  }

  /** Each node points to the next one and back, and no node occurs twice. */
  ghost predicate Linked(chain: seq<Node>)
    reads chain`prev, chain`next
  {
    Unlike(chain) && forall i: nat {:trigger Joined(chain, i)} :: i + 1 < |chain| ==> Joined(chain, i)
  }

  ghost predicate ShowsAt(nodes: seq<Node>, items: seq<Item>, i: nat)
    requires i < |nodes| == |items|
    reads nodes`value, nodes`expires
  {
    Item(nodes[i].key, nodes[i].value, nodes[i].expires) == items[i]
  }

  /** The list of nodes holds these items. */
  ghost predicate Shown(nodes: seq<Node>, items: seq<Item>)
    reads nodes`value, nodes`expires
  {
    |nodes| == |items| && forall i: nat {:trigger ShowsAt(nodes, items, i)} :: i < |items| ==> ShowsAt(nodes, items, i)
  }

  ghost predicate Entered(items: map<string, Node>, nodes: seq<Node>, i: nat)
    requires i < |nodes|
  {
    nodes[i].key in items && items[nodes[i].key] == nodes[i]
  }

  ghost predicate Listed(items: map<string, Node>, nodes: seq<Node>, k: string) {
    k in items ==> items[k] in nodes && items[k].key == k
  }

  /** The map holds exactly the nodes of the list, each under its key. */
  ghost predicate Mapped(items: map<string, Node>, nodes: seq<Node>) {
    && Unlike(nodes)
    && (forall i: nat {:trigger Entered(items, nodes, i)} :: i < |nodes| ==> Entered(items, nodes, i))
    && (forall k {:trigger Listed(items, nodes, k)} :: Listed(items, nodes, k))
  }

  function CutAt<T>(s: seq<T>, i: nat): seq<T>
    requires i < |s|
  {
    s[..i] + s[i + 1..]
  }

  lemma ChainCut(head: Node, nodes: seq<Node>, tail: Node, i: nat)
    requires i < |nodes|
    ensures [head] + CutAt(nodes, i) + [tail] == CutAt([head] + nodes + [tail], i + 1)
  {}

  /** The position in the uncut list. */
  function Uncut(i: nat, j: nat): nat {
    if j < i then j else j + 1
  }

  lemma CutUnlike(chain: seq<Node>, i: nat)
    requires Unlike(chain) && i < |chain|
    ensures chain[i] !in CutAt(chain, i) && Unlike(CutAt(chain, i)) && forall n :: n in CutAt(chain, i) ==> n in chain
  {
    var rest := CutAt(chain, i);
    forall j: nat | j < |rest| ensures rest[j] == chain[Uncut(i, j)] && rest[j] != chain[i] {
      assert if j < i then Differ(chain, j, i) else Differ(chain, i, j + 1);
    }
    forall j: nat, k: nat | j < k < |rest| ensures Differ(rest, j, k) {
      assert Differ(chain, Uncut(i, j), Uncut(i, k));
    }
  }

  /** A link away from the node after i neither starts at the node before that one nor ends at the one behind. */
  lemma ElsewhereDiffers(chain: seq<Node>, i: nat, k: nat)
    requires Unlike(chain) && i + 2 < |chain| && k + 1 < |chain| && k != i && k != i + 1
    ensures chain[k] != chain[i] && chain[k + 1] != chain[i + 2]
  {
    assert if k < i then Differ(chain, k, i) && Differ(chain, k + 1, i + 2)
           else Differ(chain, i, k) && Differ(chain, i + 2, k + 1);
  }

  lemma PushUnlike(chain: seq<Node>, item: Node)
    requires Unlike(chain) && item !in chain && chain != []
    ensures Unlike([chain[0], item] + chain[1..])
  {
    var more := [chain[0], item] + chain[1..];
    forall i: nat, j: nat | i < j < |more| ensures Differ(more, i, j) {
      if i != 1 && j != 1 {
        assert Differ(chain, if i == 0 then 0 else i - 1, j - 1);
      }
    }
  }

  lemma FindAt(items: seq<Item>, i: nat)
    requires Distinct(items) && i < |items|
    ensures Find(items, items[i].key) == i && items[i].key in Keys(items)
  {}

  lemma CutKeys(items: seq<Item>, i: nat)
    requires Distinct(items) && i < |items|
    ensures Keys(items[..i]) <= Keys(items) - {items[i].key}
    ensures Keys(items[i + 1..]) <= Keys(items) - {items[i].key}
  {
    forall k | k in Keys(items[..i]) ensures k in Keys(items) - {items[i].key} {
      var j :| 0 <= j < i && items[..i][j].key == k;
      assert items[j].key == k;
    }
    forall k | k in Keys(items[i + 1..]) ensures k in Keys(items) - {items[i].key} {
      var j :| 0 <= j < |items| - i - 1 && items[i + 1..][j].key == k;
      assert items[i + 1 + j].key == k;
    }
  }

  /** Taking a key out of a list of distinct keys is cutting its one position. */
  lemma WithoutAt(items: seq<Item>, i: nat)
    requires Distinct(items) && i < |items|
    ensures Without(items, items[i].key) == CutAt(items, i)
  {
    var a, b, keys := items[..i], items[i + 1..], Keys(items) - {items[i].key};
    CutKeys(items, i);
    assert items == a + ([items[i]] + b);
    RestrictConcat(a, [items[i]] + b, keys);
    RestrictConcat([items[i]], b, keys);
    RestrictAll(a, keys);
    RestrictAll(b, keys);
  }

  lemma ShownKeys(items: map<string, Node>, nodes: seq<Node>, shown: seq<Item>)
    requires Mapped(items, nodes) && Shown(nodes, shown)
    ensures Distinct(shown) && items.Keys == Keys(shown)
  {
    forall i: nat | i < |shown| ensures shown[i].key in items && items[shown[i].key] == nodes[i] {
      assert ShowsAt(nodes, shown, i) && Entered(items, nodes, i);
    }
    forall i: nat, j: nat | i < j < |shown| ensures shown[i].key != shown[j].key {
      assert Differ(nodes, i, j);
    }
    forall k | k in items ensures k in Keys(shown) {
      assert Listed(items, nodes, k);
      var i: nat :| i < |nodes| && nodes[i] == items[k];
      assert ShowsAt(nodes, shown, i);
    }
  }

  lemma MappedCut(items: map<string, Node>, nodes: seq<Node>, i: nat)
    requires Mapped(items, nodes) && i < |nodes|
    ensures Mapped(items - {nodes[i].key}, CutAt(nodes, i))
  {
    var rest, fewer := CutAt(nodes, i), items - {nodes[i].key};
    CutUnlike(nodes, i);
    assert Entered(items, nodes, i);
    forall j: nat | j < |rest| ensures Entered(fewer, rest, j) {
      assert Entered(items, nodes, Uncut(i, j));
      assert rest[j] in rest;
    }
    forall k ensures Listed(fewer, rest, k) {
      assert Listed(items, nodes, k);
      if k in fewer {
        var j: nat :| j < |nodes| && nodes[j] == items[k];
        assert rest[if j < i then j else j - 1] == items[k];
      }
    }
  }

  lemma MappedPush(items: map<string, Node>, nodes: seq<Node>, n: Node)
    requires Mapped(items, nodes) && n.key !in items
    ensures Mapped(items[n.key := n], [n] + nodes)
  {
    var more, all := items[n.key := n], [n] + nodes;
    forall i: nat | i < |all| ensures Entered(more, all, i) && (0 < i ==> all[i] != n) {
      assert 0 < i ==> Entered(items, nodes, i - 1);
    }
    forall i: nat, j: nat | i < j < |all| ensures Differ(all, i, j) {
      assert Entered(more, all, j);
      assert 0 < i ==> Differ(nodes, i - 1, j - 1);
    }
    forall k ensures Listed(more, all, k) {
      assert Listed(items, nodes, k);
    }
  }

  lemma ShownCut(nodes: seq<Node>, shown: seq<Item>, i: nat)
    requires Shown(nodes, shown) && i < |nodes|
    ensures Shown(CutAt(nodes, i), CutAt(shown, i))
  {
    forall j: nat | j < |shown| - 1 ensures ShowsAt(CutAt(nodes, i), CutAt(shown, i), j) {
      assert ShowsAt(nodes, shown, Uncut(i, j));
    }
  }

  lemma ShownPush(n: Node, nodes: seq<Node>, shown: seq<Item>)
    requires Shown(nodes, shown)
    ensures Shown([n] + nodes, [Item(n.key, n.value, n.expires)] + shown)
  {
    forall j: nat | 0 < j <= |shown|
      ensures ShowsAt([n] + nodes, [Item(n.key, n.value, n.expires)] + shown, j)
    {
      assert ShowsAt(nodes, shown, j - 1);
    }
  }

  /** Taking a node out of the list and the map. */
  lemma CutSound(items: map<string, Node>, nodes: seq<Node>, shown: seq<Item>, i: nat)
    requires Mapped(items, nodes) && Shown(nodes, shown) && i < |nodes|
    ensures Mapped(items - {nodes[i].key}, CutAt(nodes, i)) && Shown(CutAt(nodes, i), CutAt(shown, i))
  {
    MappedCut(items, nodes, i);
    ShownCut(nodes, shown, i);
  }

  ghost function Moved<T>(s: seq<T>, i: nat): seq<T>
    requires i < |s|
  {
    [s[i]] + CutAt(s, i)
  }

  /** Moving a node to the front. */
  lemma MoveSound(items: map<string, Node>, nodes: seq<Node>, shown: seq<Item>, i: nat)
    requires Mapped(items, nodes) && Shown(nodes, shown) && i < |nodes|
    ensures Mapped(items, Moved(nodes, i)) && Shown(Moved(nodes, i), Moved(shown, i))
  {
    CutSound(items, nodes, shown, i);
    MappedPush(items - {nodes[i].key}, CutAt(nodes, i), nodes[i]);
    ShownPush(nodes[i], CutAt(nodes, i), CutAt(shown, i));
    assert ShowsAt(nodes, shown, i) && Entered(items, nodes, i);
    assert items == (items - {nodes[i].key})[nodes[i].key := nodes[i]];
  }

  /** The node the map has for a key, found in the list. */
  lemma Locate(items: map<string, Node>, nodes: seq<Node>, shown: seq<Item>, key: string) returns (i: nat)
    requires Mapped(items, nodes) && Shown(nodes, shown) && key in items
    ensures i < |nodes| == |shown| && nodes[i] == items[key] && items[key].key == key
    ensures shown[i] == Item(key, items[key].value, items[key].expires)
  {
    assert Listed(items, nodes, key);
    i :| i < |nodes| && nodes[i] == items[key];
    assert ShowsAt(nodes, shown, i);
  }

  // What the operations on recency lists come to at the position of a key, and where there is none.

  lemma Present(items: map<string, Node>, nodes: seq<Node>, c: Cache, i: nat)
    requires Mapped(items, nodes) && Shown(nodes, c.items) && i < |nodes|
    ensures nodes[i].key in Keys(c.items) && Without(c.items, nodes[i].key) == CutAt(c.items, i)
    ensures Find(c.items, nodes[i].key) == i
  {
    assert ShowsAt(nodes, c.items, i);
    ShownKeys(items, nodes, c.items);
    FindAt(c.items, i);
    WithoutAt(c.items, i);
  }

  lemma Absent(items: map<string, Node>, nodes: seq<Node>, c: Cache, key: string)
    requires Mapped(items, nodes) && Shown(nodes, c.items) && key !in items
    ensures key !in Keys(c.items) && Find(c.items, key) == |c.items| && Without(c.items, key) == c.items
  {
    ShownKeys(items, nodes, c.items);
    RestrictAll(c.items, Keys(c.items) - {key});
  }

  lemma GetAt(items: map<string, Node>, nodes: seq<Node>, c: Cache, i: nat, now: int)
    requires Mapped(items, nodes) && Shown(nodes, c.items) && i < |nodes|
    ensures Get(c, nodes[i].key, now) ==
            if Expired(c.items[i], now) then (c.(items := CutAt(c.items, i), misses := c.misses + 1), None)
            else (c.(items := Moved(c.items, i), hits := c.hits + 1), Some(c.items[i].value))
  {
    Present(items, nodes, c, i);
  }

  lemma GetNowhere(items: map<string, Node>, nodes: seq<Node>, c: Cache, key: string, now: int)
    requires Mapped(items, nodes) && Shown(nodes, c.items) && key !in items
    ensures Get(c, key, now) == (c.(misses := c.misses + 1), None)
  {
    Absent(items, nodes, c, key);
  }

  lemma PutAt(items: map<string, Node>, nodes: seq<Node>, c: Cache, i: nat, value: string, ttl: int, now: int)
    requires Mapped(items, nodes) && Shown(nodes, c.items) && i < |nodes|
    ensures Put(c, nodes[i].key, value, ttl, now) ==
            c.(items := [Item(nodes[i].key, value, Expiry(ttl, now))] + CutAt(c.items, i))
  {
    Present(items, nodes, c, i);
  }

  lemma PutNowhere(items: map<string, Node>, nodes: seq<Node>, c: Cache, key: string, value: string, ttl: int, now: int)
    requires Mapped(items, nodes) && Shown(nodes, c.items) && key !in items
    ensures Put(c, key, value, ttl, now) == Trim(c.(items := [Item(key, value, Expiry(ttl, now))] + c.items))
  {
    Absent(items, nodes, c, key);
  }

  lemma DeleteAt(items: map<string, Node>, nodes: seq<Node>, c: Cache, i: nat)
    requires Mapped(items, nodes) && Shown(nodes, c.items) && i < |nodes|
    ensures Delete(c, nodes[i].key) == (c.(items := CutAt(c.items, i)), true)
  {
    Present(items, nodes, c, i);
  }

  lemma DeleteNowhere(items: map<string, Node>, nodes: seq<Node>, c: Cache, key: string)
    requires Mapped(items, nodes) && Shown(nodes, c.items) && key !in items
    ensures Delete(c, key) == (c, false)
  {
    Absent(items, nodes, c, key);
  }

  lemma MapSize(items: map<string, Node>, nodes: seq<Node>, shown: seq<Item>)
    requires Mapped(items, nodes) && Shown(nodes, shown)
    ensures |items| == |shown|
  {
    ShownKeys(items, nodes, shown);
    DistinctCount(shown);
    assert |items| == |items.Keys|;
  }

  class LruCache {
    var capacity: nat
    var items: map<string, Node>
    const head: Node
    const tail: Node
    var hits: nat
    var misses: nat
    var evictions: nat
    ghost var nodes: seq<Node>
    ghost var contents: seq<Item>
    ghost var repr: set<Node>

    ghost function Chain(): seq<Node>
      reads `nodes
    {
      [head] + nodes + [tail]
    }

    ghost predicate Chained()
      reads `nodes, `repr, repr`prev, repr`next
    {
      (forall n :: n in Chain() ==> n in repr) && Linked(Chain())
    }

    ghost predicate Sound()
      reads `items, `nodes, `contents, `repr, repr
    {
      Chained() && Mapped(items, nodes) && Shown(nodes, contents)
    }

    ghost predicate Valid()
      reads this, repr
    {
      Sound() && 0 < capacity && |contents| <= capacity
    }

    ghost function Model(): Cache
      reads this
    {
      Cache(capacity, contents, hits, misses, evictions)
    }

    constructor (size: int)
      ensures Valid() && fresh(repr) && Model() == New(size) && capacity == if size <= 0 then 1000 else size
    {
      capacity := if size <= 0 then 1000 else size;
      items, hits, misses, evictions := map[], 0, 0, 0;
      var first := new Node("", "", None);
      var last := new Node("", "", None);
      head, tail := first, last;
      nodes, contents, repr := [], [], {first, last};
      new;
      head.next := tail;
      tail.prev := head;
      assert Chain() == [head, tail];
    }

    method AddToFront(item: Node)
      requires Chained() && item !in Chain() && item in repr
      modifies `nodes, repr`prev, repr`next
      ensures Chained() && nodes == [item] + old(nodes)
    {
      ghost var chain := Chain();
      assert chain[0] in chain && chain[1] in chain && Joined(chain, 0) && Differ(chain, 0, 1);
      item.prev := head;
      item.next := head.next;
      head.next.prev := item;
      head.next := item;
      nodes := [item] + nodes;
      assert Chain() == [head, item] + chain[1..];
      PushUnlike(chain, item);
      forall i: nat | 2 <= i <= |nodes| ensures Joined(Chain(), i) {
        assert old(Joined(chain, i - 1)) && Differ(chain, 0, i - 1) && Differ(chain, 1, i);
      }
    }

    method RemoveFromList(item: Node, ghost i: nat)
      requires Chained() && i < |nodes| && nodes[i] == item
      modifies `nodes, repr`prev, repr`next
      ensures Chained() && nodes == CutAt(old(nodes), i)
    {
      ghost var chain := Chain();
      assert item == chain[i + 1] && Joined(chain, i) && Joined(chain, i + 1) && Differ(chain, i, i + 2);
      assert chain[i] in chain && chain[i + 2] in chain;
      item.prev.next := item.next;
      item.next.prev := item.prev;
      ChainCut(head, nodes, tail, i);
      nodes := CutAt(nodes, i);
      CutUnlike(chain, i + 1);
      forall j: nat | j < |nodes| + 1 && j != i ensures Joined(Chain(), j) {
        ghost var k := Uncut(i + 1, j);
        assert old(Joined(chain, k));
        ElsewhereDiffers(chain, i, k);
        assert Chain()[j] == chain[k] && Chain()[j + 1] == chain[k + 1];
      }
    }

    /** The links of moveToFront. */
    method Relink(item: Node, ghost i: nat)
      requires Chained() && i < |nodes| && nodes[i] == item
      modifies `nodes, repr`prev, repr`next
      ensures Chained() && nodes == Moved(old(nodes), i)
    {
      ghost var chain := Chain();
      assert chain[i + 1] == item;
      ChainCut(head, nodes, tail, i);
      CutUnlike(chain, i + 1);
      RemoveFromList(item, i);
      assert Chain() == CutAt(chain, i + 1);
      AddToFront(item);
    }

    method MoveToFront(item: Node, ghost i: nat)
      requires Sound() && i < |nodes| && nodes[i] == item
      modifies `nodes, `contents, repr`prev, repr`next
      ensures Sound() && contents == Moved(old(contents), i)
    {
      MoveSound(items, nodes, contents, i);
      ghost var first, shown := Moved(nodes, i), Moved(contents, i);
      Relink(item, i);
      assert Shown(first, shown);
      contents := shown;
    }

    method RemoveItem(item: Node, ghost i: nat)
      requires Sound() && i < |nodes| && nodes[i] == item
      modifies `items, `nodes, `contents, repr`prev, repr`next
      ensures Sound() && contents == CutAt(old(contents), i)
    {
      CutSound(items, nodes, contents, i);
      items := items - {item.key};
      RemoveFromList(item, i);
      contents := CutAt(contents, i);
    }

    method EvictLru()
      requires Sound()
      modifies `items, `nodes, `contents, `evictions, repr`prev, repr`next
      ensures Sound()
      ensures old(contents) == [] ==> contents == [] && evictions == old(evictions)
      ensures old(contents) != [] ==> evictions == old(evictions) + 1
      ensures old(contents) != [] ==> contents == old(contents)[..|old(contents)| - 1]
    {
      ghost var chain, last := Chain(), |nodes|;
      assert tail == chain[last + 1] && Joined(chain, last) && (0 < last ==> Differ(chain, 0, last));
      if tail.prev == head {
        return;
      }
      var lru := tail.prev;
      assert lru == nodes[last - 1];
      RemoveItem(lru, last - 1);
      evictions := evictions + 1;
    }

    method Get(key: string, now: int) returns (value: Option<string>)
      requires Valid()
      modifies this, repr`prev, repr`next
      ensures Valid() && repr == old(repr) && (Model(), value) == LruModel.Get(old(Model()), key, now)
    {
      if key !in items {
        GetNowhere(items, nodes, Model(), key, now);
        misses := misses + 1;
        return None;
      }
      var item := items[key];
      ghost var i := Locate(items, nodes, contents, key);
      GetAt(items, nodes, Model(), i, now);
      if item.expires.Some? && now > item.expires.value {
        Miss(item, i);
        return None;
      }
      value := Some(item.value);
      Hit(item, i);
    }

    /** An expired item goes. */
    method Miss(item: Node, ghost i: nat)
      requires Valid() && i < |nodes| && nodes[i] == item
      modifies `items, `nodes, `contents, `misses, repr`prev, repr`next
      ensures Valid() && contents == CutAt(old(contents), i) && misses == old(misses) + 1
    {
      RemoveItem(item, i);
      misses := misses + 1;
    }

    method Hit(item: Node, ghost i: nat)
      requires Valid() && i < |nodes| && nodes[i] == item
      modifies `nodes, `contents, `hits, repr`prev, repr`next
      ensures Valid() && contents == Moved(old(contents), i) && hits == old(hits) + 1
    {
      MoveToFront(item, i);
      hits := hits + 1;
    }

    method Put(key: string, value: string, ttl: int, now: int)
      requires Valid()
      modifies this, repr
      ensures Valid() && Model() == LruModel.Put(old(Model()), key, value, ttl, now)
      ensures old(repr) <= repr && fresh(repr - old(repr))
    {
      if key in items {
        var existing := items[key];
        ghost var i := Locate(items, nodes, contents, key);
        PutAt(items, nodes, Model(), i, value, ttl, now);
        Overwrite(existing, value, Expiry(ttl, now), i);
      } else {
        PutNowhere(items, nodes, Model(), key, value, ttl, now);
        Insert(key, value, Expiry(ttl, now));
        MapSize(items, nodes, contents);
        if |items| > capacity {
          EvictLru();
        }
      }
    }

    /** Put for a key that is there. */
    method Overwrite(existing: Node, value: string, expires: Option<int>, ghost i: nat)
      requires Sound() && i < |nodes| && nodes[i] == existing
      modifies `nodes, `contents, repr
      ensures Sound()
      ensures contents == [Item(existing.key, value, expires)] + CutAt(old(contents), i)
    {
      assert existing == Chain()[i + 1];
      existing.value := value;
      existing.expires := expires;
      contents := contents[i := Item(existing.key, value, expires)];
      forall j: nat | j < |nodes| ensures ShowsAt(nodes, contents, j) {
        assert old(ShowsAt(nodes, contents, j));
        assert if j < i then Differ(nodes, j, i) else j > i ==> Differ(nodes, i, j);
      }
      MoveToFront(existing, i);
    }

    /** Enters a new node in the list and the map. */
    method Attach(item: Node)
      requires Sound() && item !in Chain() && item in repr && item.key !in items
      modifies `items, `nodes, `contents, repr`prev, repr`next
      ensures Sound() && contents == [Item(item.key, item.value, item.expires)] + old(contents)
    {
      MappedPush(items, nodes, item);
      ghost var shown := [Item(item.key, item.value, item.expires)] + contents;
      ShownPush(item, nodes, contents);
      AddToFront(item);
      items := items[item.key := item];
      contents := shown;
    }

    /** Put for a key that is not there, up to the check of the capacity. */
    method Insert(key: string, value: string, expires: Option<int>)
      requires Sound() && key !in items
      modifies `items, `nodes, `contents, `repr, repr`prev, repr`next
      ensures Sound() && contents == [Item(key, value, expires)] + old(contents)
      ensures old(repr) <= repr && fresh(repr - old(repr))
    {
      var item := new Node(key, value, expires);
      repr := repr + {item};
      Attach(item);
    }

    method Delete(key: string) returns (found: bool)
      requires Valid()
      modifies this, repr`prev, repr`next
      ensures Valid() && repr == old(repr) && (Model(), found) == LruModel.Delete(old(Model()), key)
    {
      if key !in items {
        DeleteNowhere(items, nodes, Model(), key);
        return false;
      }
      ghost var i := Locate(items, nodes, contents, key);
      DeleteAt(items, nodes, Model(), i);
      RemoveItem(items[key], i);
      found := true;
    }

    method Clear()
      requires Valid()
      modifies this, repr`prev, repr`next
      ensures Valid() && Model() == LruModel.Clear(old(Model())) && repr == old(repr)
    {
      assert head == Chain()[0] && tail == Chain()[|nodes| + 1] && Differ(Chain(), 0, |nodes| + 1);
      items := map[];
      head.next := tail;
      tail.prev := head;
      hits, misses, evictions := 0, 0, 0;
      nodes, contents := [], [];
      assert Chain() == [head, tail];
    }

    /** The first loop of CleanupExpired. */
    method ExpiredKeys(now: int) returns (keys: seq<string>)
      requires Sound()
      ensures forall k :: k in keys <==> k in Keys(contents) - Fresh(contents, now)
      ensures Seqs.Unique(keys)
    {
      keys := [];
      var rest := items.Keys;
      while rest != {}
        invariant rest <= items.Keys && Seqs.Unique(keys)
        invariant forall k :: k in keys <==> k in items && k !in rest && Expired(Item(k, "", items[k].expires), now)
      {
        var key :| key in rest;
        if items[key].expires.Some? && now > items[key].expires.value {
          keys := keys + [key];
        }
        rest := rest - {key};
      }
      ExpiredShown(items, nodes, contents, now);
    }

    method CleanupExpired(now: int) returns (count: nat)
      requires Valid()
      modifies this, repr`prev, repr`next
      ensures Valid() && repr == old(repr) && Model() == Cleanup(old(Model()), now)
      ensures count == |old(contents)| - |contents|
    {
      var keys := ExpiredKeys(now);
      ShownKeys(items, nodes, contents);
      DroppedFresh(contents, keys, now);
      DropAll(keys);
      count := |keys|;
    }

    /** The second loop of CleanupExpired. */
    method DropAll(keys: seq<string>)
      requires Sound()
      modifies `items, `nodes, `contents, repr`prev, repr`next
      ensures Sound() && contents == Dropped(old(contents), keys)
    {
      var i := 0;
      while i < |keys|
        invariant 0 <= i <= |keys| && Sound() && contents == Dropped(old(contents), keys[..i])
      {
        assert keys[..i + 1][..i] == keys[..i];
        Drop(keys[i]);
        i := i + 1;
      }
      assert keys[..i] == keys;
    }

    /** One round of the second loop of CleanupExpired. */
    method Drop(key: string)
      requires Sound()
      modifies `items, `nodes, `contents, repr`prev, repr`next
      ensures Sound() && contents == Without(old(contents), key)
    {
      if key in items {
        ghost var i := Locate(items, nodes, contents, key);
        Present(items, nodes, Model(), i);
        RemoveItem(items[key], i);
      } else {
        Absent(items, nodes, Model(), key);
      }
    }
  }

  lemma ExpiredShown(items: map<string, Node>, nodes: seq<Node>, shown: seq<Item>, now: int)
    requires Mapped(items, nodes) && Shown(nodes, shown)
    ensures forall k :: k in items && Expired(Item(k, "", items[k].expires), now) <==>
            k in Keys(shown) - Fresh(shown, now)
  {
    ShownKeys(items, nodes, shown);
    forall k | k in items ensures Expired(Item(k, "", items[k].expires), now) <==> k !in Fresh(shown, now) {
      var i := Locate(items, nodes, shown, k);
      FindAt(shown, i);
      FreshAt(shown, k, now);
    }
  }

  /** The list after the listed keys are taken out one by one. */
  ghost function Dropped(items: seq<Item>, keys: seq<string>): seq<Item> {
    if keys == [] then items else Without(Dropped(items, keys[..|keys| - 1]), keys[|keys| - 1])
  }

  /** The keys left after the first i of those listed are gone. */
  ghost function Left(before: seq<Item>, keys: seq<string>, i: nat): set<string>
    requires i <= |keys|
  {
    Keys(before) - set j | 0 <= j < i :: keys[j]
  }

  lemma DropOne(before: seq<Item>, keys: seq<string>, i: nat)
    requires Distinct(before) && Seqs.Unique(keys) && i < |keys| && keys[i] in Keys(before)
    ensures var now := Restrict(before, Left(before, keys, i));
            Without(now, keys[i]) == Restrict(before, Left(before, keys, i + 1)) && |Without(now, keys[i])| == |now| - 1
  {
    var left, key := Left(before, keys, i), keys[i];
    var now := Restrict(before, left);
    RestrictKeys(before, left);
    RestrictDistinct(before, left);
    WithoutLength(now, key);
    RestrictTwice(before, left, Keys(now) - {key});
    assert key in left;
    assert left * (Keys(now) - {key}) == Left(before, keys, i + 1);
  }

  lemma {:induction false} DroppedLeft(before: seq<Item>, keys: seq<string>, i: nat)
    requires Distinct(before) && Seqs.Unique(keys) && i <= |keys| && forall k :: k in keys ==> k in Keys(before)
    ensures Dropped(before, keys[..i]) == Restrict(before, Left(before, keys, i))
    ensures |Dropped(before, keys[..i])| == |before| - i
  {
    if i == 0 {
      RestrictAll(before, Left(before, keys, 0));
    } else {
      DroppedLeft(before, keys, i - 1);
      assert keys[i - 1] in keys && keys[..i][..i - 1] == keys[..i - 1];
      DropOne(before, keys, i - 1);
    }
  }

  lemma LeftFresh(before: seq<Item>, keys: seq<string>, now: int)
    requires forall k :: k in keys <==> k in Keys(before) - Fresh(before, now)
    ensures Restrict(before, Left(before, keys, |keys|)) == Restrict(before, Fresh(before, now))
  {
    forall k | k in Keys(before) ensures k in Left(before, keys, |keys|) <==> k in Fresh(before, now) {
      assert k in keys <==> k in set j | 0 <= j < |keys| :: keys[j];
    }
    RestrictSame(before, Left(before, keys, |keys|), Fresh(before, now));
  }

  /** Taking out the expired keys, in whatever order, leaves the fresh items. */
  lemma DroppedFresh(before: seq<Item>, keys: seq<string>, now: int)
    requires Distinct(before) && Seqs.Unique(keys) && forall k :: k in keys <==> k in Keys(before) - Fresh(before, now)
    ensures Dropped(before, keys) == Restrict(before, Fresh(before, now))
    ensures |Dropped(before, keys)| == |before| - |keys|
  {
    DroppedLeft(before, keys, |keys|);
    assert keys[..|keys|] == keys;
    LeftFresh(before, keys, now);
  }
}
