/** Replica sets of keys, how far they are from the key, and how little they change. */
module RingReplicas {
  import opened Wrappers
  import opened Seqs
  import opened RingModel
  import opened RingRouting

  // ----- size and stability -----

  function ActiveNodes(r: Ring): set<string> {
    set id | id in r.nodes && r.nodes[id].Active?
  }

  /** As many distinct active nodes as asked for, or all of them if there are fewer; an error only if there are none. */
  lemma ReplicaCount(points: Points, r: Ring, h: int, count: int)
    requires Consistent(points, r)
    ensures GetNodes(r, h, count).None? <==> ActiveNodes(r) == {}
    ensures var found, wanted := GetNodes(r, h, count), if count <= 0 then 1 else count;
            found.Some? ==>
              && Unique(found.value) && (forall id :: id in found.value ==> id in ActiveNodes(r))
              && |found.value| == if wanted < |ActiveNodes(r)| then wanted else |ActiveNodes(r)|
  {
    PreferenceComplete(points, r, h);
    ReplicasOfAll(points, r, h, Wanted(count));
    var all := Filter(Up(r.nodes), Preference(r, h));
    FilterUnique(Up(r.nodes), Preference(r, h));
    FilterMembers(Up(r.nodes), Preference(r, h));
    UniqueSize(all, ActiveNodes(r));
    if ActiveNodes(r) == {} {
      assert all == [];
    }
  }

  /** Asking for more replicas only adds to the end of the list. */
  lemma ReplicaPrefix(r: Ring, h: int, fewer: int, more: int)
    requires 0 < fewer <= more && GetNodes(r, h, fewer).Some?
    ensures GetNodes(r, h, more).Some? && GetNodes(r, h, fewer).value <= GetNodes(r, h, more).value
  {}

  lemma TakeConcat(k: nat, a: seq<string>, b: seq<string>)
    requires |a| <= k
    ensures a <= Take(k, a + b) && |Take(k, a + b)| <= k && (|a| == k || b == [] ==> Take(k, a + b) == a)
  {}

  lemma TakeWithout(k: nat, s: seq<string>, id: string)
    requires Unique(s) && 0 < k
    ensures var whole, part := Take(k, Filter(Not(id), s)), Take(k, s);
            if id in part then Filter(Not(id), part) <= whole && |whole| <= |Filter(Not(id), part)| + 1
            else part == whole
  {
    var part, rest := Take(k, s), if k < |s| then s[k..] else [];
    var kept, others := Filter(Not(id), part), Filter(Not(id), rest);
    assert s == part + rest;
    FilterConcat(Not(id), part, rest);
    WithoutOne(id, part);
    TakeConcat(k, kept, others);
    if |part| < k { assert rest == [] && others == []; }
  }

  lemma {:induction false} WithoutOne(id: string, s: seq<string>)
    requires Unique(s)
    ensures |Filter(Not(id), s)| == |s| - (if id in s then 1 else 0)
    ensures id !in s ==> Filter(Not(id), s) == s
  {
    if s != [] {
      assert s == [s[0]] + s[1..];
      assert s[0] !in s[1..];
      WithoutOne(id, s[1..]);
    }
  }

  /** The active nodes in order of preference, with a new node left out, are those of before. */
  lemma ActiveMovesOnlyToNew(points: Points, r: Ring, id: string, status: Status, h: int)
    requires Consistent(points, r) && id !in r.nodes && Apart(points, r, id)
    ensures var ring := AddNode(points, r, id, status).0;
            Filter(Not(id), Filter(Up(ring.nodes), Preference(ring, h))) == Filter(Up(r.nodes), Preference(r, h))
  {
    var ring := AddNode(points, r, id, status).0;
    FilterSwap(Not(id), Up(ring.nodes), Preference(ring, h));
    AddMovesOnlyToNew(points, r, id, status, h);
    FilterMembers(Not(id), Preference(ring, h));
    FilterSame(Up(ring.nodes), Up(r.nodes), Preference(r, h));
  }

  /** The replicas are the first of the active nodes in order of preference. */
  lemma ActiveInOrder(points: Points, r: Ring, h: int, wanted: nat) returns (all: seq<string>)
    requires Consistent(points, r)
    ensures all == Filter(Up(r.nodes), Preference(r, h)) && Unique(all) && Replicas(r, h, wanted) == Take(wanted, all)
  {
    all := Filter(Up(r.nodes), Preference(r, h));
    ReplicasOfAll(points, r, h, wanted);
    PreferenceComplete(points, r, h);
    FilterUnique(Up(r.nodes), Preference(r, h));
  }

  /** Adding a node changes a key's replicas only by letting the new node in: the others keep their order, and at most
      the last of the old ones falls out. */
  lemma AddChangesOneReplica(points: Points, r: Ring, id: string, status: Status, h: int, count: int)
    requires Consistent(points, r) && id !in r.nodes && Apart(points, r, id) && GetNodes(r, h, count).Some?
    ensures var before, after := GetNodes(r, h, count), GetNodes(AddNode(points, r, id, status).0, h, count);
            after.Some? &&
            if id in after.value then
              Filter(Not(id), after.value) <= before.value && |before.value| <= |Filter(Not(id), after.value)| + 1
            else after == before
  {
    var ring := AddNode(points, r, id, status).0;
    AddConsistent(points, r, id, status);
    var all := ActiveInOrder(points, ring, h, Wanted(count));
    var few := ActiveInOrder(points, r, h, Wanted(count));
    ActiveMovesOnlyToNew(points, r, id, status, h);
    TakeWithout(Wanted(count), all, id);
  }

  // ----- distance -----

  /** How far clockwise a point is from a hash. */
  function Distance(h: int, p: int): int {
    if h <= p then p - h else p - h + SPACE
  }

  ghost predicate Hashed(points: Points) {
    forall id: string, i: nat :: 0 <= Point(points, id, i) < SPACE
  }

  lemma PointsHashed(points: Points, r: Ring)
    requires Consistent(points, r) && Hashed(points)
    ensures forall p :: p in r.sorted ==> 0 <= p < SPACE
  {
    forall p | p in r.sorted ensures 0 <= p < SPACE {
      assert Placed(points, r, p);
      var i: nat :| i < r.virtuals && Point(points, r.table[p], i) == p;
    }
  }

  lemma StrictAt(s: seq<int>, i: nat, j: nat)
    requires Strict(s) && i < j < |s|
    ensures s[i] < s[j]
  {
    AscendingAt(s, i, j);
  }

  /** The walk meets the points in order of distance. */
  lemma WalkByDistance(sorted: seq<int>, h: int, i: nat, j: nat)
    requires Strict(sorted) && 0 <= h < SPACE && (forall p :: p in sorted ==> 0 <= p < SPACE)
    requires i < j < |Walk(sorted, h)|
    ensures Distance(h, Walk(sorted, h)[i]) < Distance(h, Walk(sorted, h)[j])
  {
    SearchSplits(sorted, h);
    var k, n := Search(sorted, h), |sorted|;
    var a := if i < n - k then k + i else i - (n - k);
    var b := if j < n - k then k + j else j - (n - k);
    assert Walk(sorted, h)[i] == sorted[a] && Walk(sorted, h)[j] == sorted[b];
    assert sorted[a] in sorted && sorted[b] in sorted;
    if a < b { StrictAt(sorted, a, b); }
    if k < a { AscendingAt(sorted, k, a); }
    if k < b { AscendingAt(sorted, k, b); }
  }

  /** Of two nodes in a preference list, the earlier has a point closer to the key than every point of the later. */
  lemma PreferenceByDistance(points: Points, r: Ring, h: int, i: nat, j: nat)
    requires Consistent(points, r) && Hashed(points) && 0 <= h < SPACE && i < j < |Preference(r, h)|
    ensures exists p :: p in r.table && r.table[p] == Preference(r, h)[i]
              && forall q :: q in r.table && r.table[q] == Preference(r, h)[j] ==> Distance(h, p) < Distance(h, q)
  {
    var walk := Walk(r.sorted, h);
    var owners := Owners(r.table, walk);
    WalkMembers(r.sorted, h);
    PointsHashed(points, r);
    var a := SeenOrder(owners, i, j);
    var p := walk[a];
    assert p in walk;
    forall q | q in r.table && r.table[q] == Preference(r, h)[j] ensures Distance(h, p) < Distance(h, q) {
      assert q in walk;
      var b: nat :| b < |walk| && walk[b] == q;
      assert owners[b] == Preference(r, h)[j];
      WalkByDistance(r.sorted, h, a, b);
    }
  }

  /** The first point of the walk is nearer than every other. */
  lemma FirstIsNearest(sorted: seq<int>, h: int, q: int)
    requires Strict(sorted) && 0 <= h < SPACE && (forall p :: p in sorted ==> 0 <= p < SPACE)
    requires q in sorted && Walk(sorted, h) != [] && q != Walk(sorted, h)[0]
    ensures Distance(h, Walk(sorted, h)[0]) < Distance(h, q)
  {
    var walk := Walk(sorted, h);
    WalkMembers(sorted, h);
    var b: nat :| b < |walk| && walk[b] == q;
    WalkByDistance(sorted, h, 0, b);
  }

  /** The point the owner of a key is found at. */
  lemma OwnerPoint(r: Ring, h: int) returns (p: int)
    requires Ascending(r.sorted) && r.sorted != []
    ensures Walk(r.sorted, h) != [] && p == Walk(r.sorted, h)[0] && p in r.sorted
    ensures GetNode(r, h) == Some(Lookup(r.table, p))
  {
    RotationIsWalk(r.sorted, h);
    p := r.sorted[Start(r.sorted, h)];
  }

  /** A key belongs to the node whose point is next clockwise. */
  lemma OwnerIsNearest(points: Points, r: Ring, h: int)
    requires Consistent(points, r) && Hashed(points) && 0 <= h < SPACE && r.nodes != map[]
    ensures exists p :: p in r.table && GetNode(r, h) == Some(r.table[p])
              && forall q :: q in r.table && q != p ==> Distance(h, p) < Distance(h, q)
  {
    var id :| id in r.nodes;
    NonEmpty(points, r, id);
    PointsHashed(points, r);
    var p := OwnerPoint(r, h);
    forall q | q in r.table && q != p ensures Distance(h, p) < Distance(h, q) {
      FirstIsNearest(r.sorted, h, q);
    }
  }

  // ----- the ring is a function of its nodes -----

  /** Two consistent rings with the same nodes have the same points with the same owners. */
  lemma Canonical(points: Points, a: Ring, b: Ring)
    requires Consistent(points, a) && Consistent(points, b) && a.virtuals == b.virtuals && a.nodes.Keys == b.nodes.Keys
    ensures a.table == b.table && a.sorted == b.sorted
  {
    OwnsAsMuch(points, a, b);
    OwnsAsMuch(points, b, a);
    assert a.table.Keys == b.table.Keys;
    forall p | p in a.table ensures a.table[p] == b.table[p] {}
    UniqueCount(a.sorted);
    UniqueCount(b.sorted);
    forall p ensures multiset(a.sorted)[p] == multiset(b.sorted)[p] {
      assert p in multiset(a.sorted) <==> p in a.sorted;
      assert p in multiset(b.sorted) <==> p in b.sorted;
    }
    AscendingUnique(a.sorted, b.sorted);
  }

  lemma OwnsAsMuch(points: Points, a: Ring, b: Ring)
    requires Consistent(points, a) && Consistent(points, b) && a.virtuals == b.virtuals && a.nodes.Keys == b.nodes.Keys
    ensures a.table.Keys <= b.table.Keys && forall p :: p in a.table ==> b.table[p] == a.table[p]
  {
    forall p | p in a.table ensures p in b.table && b.table[p] == a.table[p] {
      assert Placed(points, a, p);
      var i: nat :| i < a.virtuals && Point(points, a.table[p], i) == p;
      assert a.table[p] in b.nodes.Keys;
      assert Holds(points, b, a.table[p]);
    }
  }

  datatype Change = Add(id: string, status: Status) | Remove(id: string)

  function Apply(points: Points, r: Ring, change: Change): Ring {
    match change
    case Add(id, status) => AddNode(points, r, id, status).0
    case Remove(id) => RemoveNode(r, id).0
  }

  function ApplyAll(points: Points, r: Ring, changes: seq<Change>): Ring {
    if changes == [] then r else Apply(points, ApplyAll(points, r, changes[..|changes| - 1]), changes[|changes| - 1])
  }

  /** After any history of node changes, with or without collisions, the points are in order. */
  lemma {:induction false} HistoryAscending(points: Points, virtuals: int, changes: seq<Change>)
    ensures Ascending(ApplyAll(points, New(virtuals), changes).sorted)
    decreases |changes|
  {
    if changes != [] {
      var past, last := changes[..|changes| - 1], changes[|changes| - 1];
      HistoryAscending(points, virtuals, past);
      var r := ApplyAll(points, New(virtuals), past);
      if last.Remove? { SweepAscending(r.table, r.sorted, last.id); }
    }
  }

  /** No two virtual nodes of these nodes have the same hash. */
  ghost predicate CollisionFree(points: Points, ids: iset<string>, n: nat) {
    forall a: string, i: nat, b: string, j: nat ::
      a in ids && b in ids && i < n && j < n && Point(points, a, i) == Point(points, b, j) ==> a == b && i == j
  }

  lemma StaysApart(points: Points, r: Ring, id: string, ids: iset<string>)
    requires Consistent(points, r) && CollisionFree(points, ids, r.virtuals)
    requires id in ids && id !in r.nodes && forall n :: n in r.nodes ==> n in ids
    ensures Apart(points, r, id)
  {
    var marks := Marks(points, id, r.virtuals);
    assert forall i: nat :: i < |marks| ==> marks[i] == Point(points, id, i);
    forall p | p in marks ensures p !in r.table {
      var i: nat :| i < |marks| && marks[i] == p;
      assert Placed(points, r, p);
    }
  }

  /** Any history of node changes over nodes whose hashes do not collide leaves a consistent ring. */
  lemma {:induction false} HistoryConsistent(points: Points, virtuals: int, changes: seq<Change>, ids: iset<string>)
    requires CollisionFree(points, ids, New(virtuals).virtuals)
    requires forall i :: 0 <= i < |changes| ==> changes[i].id in ids
    ensures var r := ApplyAll(points, New(virtuals), changes);
            Consistent(points, r) && r.virtuals == New(virtuals).virtuals && forall n :: n in r.nodes ==> n in ids
    decreases |changes|
  {
    if changes != [] {
      var past, last := changes[..|changes| - 1], changes[|changes| - 1];
      HistoryConsistent(points, virtuals, past, ids);
      var r := ApplyAll(points, New(virtuals), past);
      if last.Remove? {
        RemoveConsistent(points, r, last.id);
      } else if last.id !in r.nodes {
        StaysApart(points, r, last.id, ids);
        AddConsistent(points, r, last.id, last.status);
      }
    }
  }

  /** Routing depends on which nodes are in the ring and on nothing else that ever happened to it. */
  lemma HistoryIndependent(points: Points, virtuals: int, one: seq<Change>, other: seq<Change>, ids: iset<string>)
    requires CollisionFree(points, ids, New(virtuals).virtuals)
    requires forall i :: 0 <= i < |one| ==> one[i].id in ids
    requires forall i :: 0 <= i < |other| ==> other[i].id in ids
    requires ApplyAll(points, New(virtuals), one).nodes == ApplyAll(points, New(virtuals), other).nodes
    ensures ApplyAll(points, New(virtuals), one) == ApplyAll(points, New(virtuals), other)
  {
    HistoryConsistent(points, virtuals, one, ids);
    HistoryConsistent(points, virtuals, other, ids);
    Canonical(points, ApplyAll(points, New(virtuals), one), ApplyAll(points, New(virtuals), other));
  }
}
