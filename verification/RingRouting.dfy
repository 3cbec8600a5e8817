/** Who owns a key, and who holds its replicas. */
module RingRouting {
  import opened Wrappers
  import opened Seqs
  import opened RingModel

  // ----- the clockwise walk -----

  /** The first index whose point is at or after the hash, or the number of points. */
  function Search(sorted: seq<int>, h: int): (i: nat)
    ensures i <= |sorted|
    ensures forall j :: 0 <= j < i ==> sorted[j] < h
    ensures i < |sorted| ==> h <= sorted[i]
  {
    if sorted == [] || h <= sorted[0] then 0 else 1 + Search(sorted[1..], h)
  }

  function Start(sorted: seq<int>, h: int): (i: nat)
    ensures sorted != [] ==> i < |sorted|
  {
    if Search(sorted, h) == |sorted| then 0 else Search(sorted, h)
  }

  function AtOrAfter(h: int): int -> bool {
    p => h <= p
  }

  function Before(h: int): int -> bool {
    p => p < h
  }

  function Walk(sorted: seq<int>, h: int): seq<int> {
    Filter(AtOrAfter(h), sorted) + Filter(Before(h), sorted)
  }

  lemma SearchBounds(sorted: seq<int>, h: int)
    requires Ascending(sorted)
    ensures (forall p :: p in sorted[..Search(sorted, h)] ==> p < h)
            && forall p :: p in sorted[Search(sorted, h)..] ==> h <= p
  {
    var i := Search(sorted, h);
    forall p | p in sorted[i..] ensures h <= p {
      var j: nat :| j < |sorted| - i && sorted[i..][j] == p;
      if 0 < j { AscendingAt(sorted, i, i + j); }
    }
  }

  lemma SplitsAt(low: seq<int>, high: seq<int>, h: int)
    requires (forall p :: p in low ==> p < h) && forall p :: p in high ==> h <= p
    ensures Filter(AtOrAfter(h), low + high) == high && Filter(Before(h), low + high) == low
  {
    FilterConcat(AtOrAfter(h), low, high);
    FilterConcat(Before(h), low, high);
    FilterNone(AtOrAfter(h), low);
    FilterAll(AtOrAfter(h), high);
    FilterAll(Before(h), low);
    FilterNone(Before(h), high);
  }

  lemma SearchSplits(sorted: seq<int>, h: int)
    requires Ascending(sorted)
    ensures var i := Search(sorted, h);
            Filter(AtOrAfter(h), sorted) == sorted[i..] && Filter(Before(h), sorted) == sorted[..i]
  {
    var i := Search(sorted, h);
    SearchBounds(sorted, h);
    SplitsAt(sorted[..i], sorted[i..], h);
    assert sorted == sorted[..i] + sorted[i..];
  }

  /** Going round from the start of the search is going through the points at or after the hash and then those before.
      */
  lemma RotationIsWalk(sorted: seq<int>, h: int)
    requires Ascending(sorted)
    ensures var i := Start(sorted, h); sorted != [] ==> sorted[i..] + sorted[..i] == Walk(sorted, h)
  {
    SearchSplits(sorted, h);
  }

  lemma WalkMembers(sorted: seq<int>, h: int)
    ensures forall p :: p in Walk(sorted, h) <==> p in sorted
  {
    FilterMembers(AtOrAfter(h), sorted);
    FilterMembers(Before(h), sorted);
  }

  lemma WalkFilter(f: int -> bool, sorted: seq<int>, h: int)
    ensures Walk(Filter(f, sorted), h) == Filter(f, Walk(sorted, h))
  {
    FilterConcat(f, Filter(AtOrAfter(h), sorted), Filter(Before(h), sorted));
    FilterSwap(f, AtOrAfter(h), sorted);
    FilterSwap(f, Before(h), sorted);
  }

  function Owners(table: map<int, string>, walk: seq<int>): (r: seq<string>)
    ensures |r| == |walk| && forall i :: 0 <= i < |walk| ==> r[i] == Lookup(table, walk[i])
  {
    seq(|walk|, i requires 0 <= i < |walk| => Lookup(table, walk[i]))
  }

  function GetNode(r: Ring, h: int): Option<string> {
    if r.sorted == [] then None else Some(Lookup(r.table, r.sorted[Start(r.sorted, h)]))
  }

  /** The nodes in the order the walk first meets them. */
  function Preference(r: Ring, h: int): seq<string> {
    FirstSeen(Owners(r.table, Walk(r.sorted, h)))
  }

  function Up(nodes: map<string, Status>): string -> bool {
    id => id in nodes && nodes[id].Active?
  }

  function Take<T>(n: int, s: seq<T>): seq<T> {
    if 0 <= n < |s| then s[..n] else s
  }

  function Wanted(count: int): nat {
    if count <= 0 then 1 else count
  }

  /** The active ones, up to the number wanted, among as many of the first names the walk meets as there are nodes. */
  function Replicas(r: Ring, h: int, wanted: nat): seq<string> {
    Take(wanted, Filter(Up(r.nodes), Take(|r.nodes|, Preference(r, h))))
  }

  /** The replicas of a key, or an error if there are none. */
  function GetNodes(r: Ring, h: int, count: int): Option<seq<string>> {
    if r.nodes == map[] then None else
    var found := Replicas(r, h, Wanted(count));
    if found == [] then None else Some(found)
  }

  // ----- the preference list -----

  /** Every node occurs in the preference list, once, and nothing else does. */
  lemma PreferenceComplete(points: Points, r: Ring, h: int)
    requires Consistent(points, r)
    ensures Unique(Preference(r, h)) && forall id :: id in Preference(r, h) <==> id in r.nodes
  {
    var walk := Walk(r.sorted, h);
    var owners := Owners(r.table, walk);
    SeenMembers(owners);
    WalkMembers(r.sorted, h);
    forall id | id in owners ensures id in r.nodes {
      var i :| 0 <= i < |owners| && owners[i] == id;
      assert walk[i] in walk;
      assert Placed(points, r, walk[i]);
    }
    forall id | id in r.nodes ensures id in owners {
      assert Holds(points, r, id);
      var p := Point(points, id, 0);
      assert p in walk;
      var i :| 0 <= i < |walk| && walk[i] == p;
      assert owners[i] == id;
    }
  }

  /** On a consistent ring the replicas are the first active nodes of the whole preference list. */
  lemma ReplicasOfAll(points: Points, r: Ring, h: int, wanted: nat)
    requires Consistent(points, r)
    ensures Replicas(r, h, wanted) == Take(wanted, Filter(Up(r.nodes), Preference(r, h)))
  {
    PreferenceComplete(points, r, h);
    UniqueSize(Preference(r, h), r.nodes.Keys);
    assert |r.nodes| == |r.nodes.Keys|;
  }

  /** A key's owner is the first of its preference list. */
  lemma OwnerFirst(r: Ring, h: int)
    requires Ascending(r.sorted) && r.sorted != []
    ensures Preference(r, h) != [] && GetNode(r, h) == Some(Preference(r, h)[0])
  {
    var walk := Walk(r.sorted, h);
    RotationIsWalk(r.sorted, h);
    assert walk[0] == r.sorted[Start(r.sorted, h)];
    var owners := Owners(r.table, walk);
    assert owners == [owners[0]] + owners[1..];
    assert FirstSeen([owners[0]]) == [owners[0]];
    SeenPrefix([owners[0]], owners[1..]);
  }

  function Not(id: string): string -> bool {
    x => x != id
  }

  lemma OwnersCons(table: map<int, string>, first: int, rest: seq<int>)
    ensures Owners(table, [first] + rest) == [Lookup(table, first)] + Owners(table, rest)
  {}

  /** Dropping a node's points from the walk drops the node from the owners. */
  lemma {:induction false} OwnersFilter(less: map<int, string>, more: map<int, string>, id: string, walk: seq<int>)
    requires forall p :: p in walk && Lookup(more, p) != id ==> Lookup(less, p) == Lookup(more, p)
    ensures Owners(less, Filter(Others(more, id), walk)) == Filter(Not(id), Owners(more, walk))
  {
    if walk == [] {
      assert Owners(more, walk) == [] && Owners(less, []) == [];
    } else {
      var first, rest := walk[0], walk[1..];
      assert walk == [first] + rest && first in walk;
      OwnersFilter(less, more, id, rest);
      OwnersCons(more, first, rest);
      FilterCons(Others(more, id), first, rest);
      FilterCons(Not(id), Lookup(more, first), Owners(more, rest));
      OwnersCons(less, first, Filter(Others(more, id), rest));
    }
  }

  lemma PreferenceFilter(less: Ring, more: Ring, id: string, h: int)
    requires less.sorted == Filter(Others(more.table, id), more.sorted)
    requires forall p :: p in more.sorted && Lookup(more.table, p) != id ==>
             Lookup(less.table, p) == Lookup(more.table, p)
    ensures Preference(less, h) == Filter(Not(id), Preference(more, h))
  {
    var walk := Walk(more.sorted, h);
    WalkFilter(Others(more.table, id), more.sorted, h);
    WalkMembers(more.sorted, h);
    OwnersFilter(less.table, more.table, id, walk);
    SeenFilter(Not(id), Owners(more.table, walk));
  }

  /** A new node enters each key's preference list at one place and moves nothing else. */
  lemma AddMovesOnlyToNew(points: Points, r: Ring, id: string, status: Status, h: int)
    requires Consistent(points, r) && id !in r.nodes && Apart(points, r, id)
    ensures Filter(Not(id), Preference(AddNode(points, r, id, status).0, h)) == Preference(r, h)
  {
    var marks, after := Marks(points, id, r.virtuals), AddNode(points, r, id, status).0;
    forall p | p in r.table ensures r.table[p] != id && p !in marks {
      assert Placed(points, r, p);
    }
    SortedUndone(r.table, id, marks, r.sorted);
    EnterTable(r.table, id, marks);
    SortMembers(r.sorted, marks);
    PreferenceFilter(r, after, id, h);
  }

  /** A removed node leaves each key's preference list and moves nothing else. */
  lemma RemoveMovesOnlyFromOld(points: Points, r: Ring, id: string, h: int)
    requires Consistent(points, r) && id in r.nodes
    ensures Preference(RemoveNode(r, id).0, h) == Filter(Not(id), Preference(r, h))
  {
    SweepExact(r.table, r.sorted, id);
    PreferenceFilter(RemoveNode(r, id).0, r, id, h);
  }

  lemma EmptyPreference(r: Ring, h: int)
    ensures r.sorted == [] <==> Preference(r, h) == []
  {
    WalkMembers(r.sorted, h);
    SeenMembers(Owners(r.table, Walk(r.sorted, h)));
    if r.sorted != [] {
      assert r.sorted[0] in Walk(r.sorted, h);
      assert Owners(r.table, Walk(r.sorted, h))[0] in Owners(r.table, Walk(r.sorted, h));
    }
  }

  lemma HeadOfFilter(f: string -> bool, s: seq<string>)
    requires s != [] && f(s[0])
    ensures Filter(f, s) != [] && Filter(f, s)[0] == s[0]
  {}

  /** Adding a node moves a key to the new node or not at all. */
  lemma AddKeepsOwners(points: Points, r: Ring, id: string, status: Status, h: int)
    requires Consistent(points, r) && id !in r.nodes && Apart(points, r, id)
    ensures var owner := GetNode(AddNode(points, r, id, status).0, h); owner == GetNode(r, h) || owner == Some(id)
  {
    var after := AddNode(points, r, id, status).0;
    AddMovesOnlyToNew(points, r, id, status, h);
    AddConsistent(points, r, id, status);
    NonEmpty(points, after, id);
    OwnerFirst(after, h);
    if Preference(after, h)[0] != id {
      HeadOfFilter(Not(id), Preference(after, h));
      EmptyPreference(r, h);
      OwnerFirst(r, h);
    }
  }

  /** Removing a node moves only the keys it owned. */
  lemma RemoveKeepsOwners(points: Points, r: Ring, id: string, h: int)
    requires Consistent(points, r) && id in r.nodes && GetNode(r, h) != Some(id)
    ensures GetNode(RemoveNode(r, id).0, h) == GetNode(r, h)
  {
    var after := RemoveNode(r, id).0;
    RemoveMovesOnlyFromOld(points, r, id, h);
    RemoveConsistent(points, r, id);
    NonEmpty(points, r, id);
    OwnerFirst(r, h);
    HeadOfFilter(Not(id), Preference(r, h));
    EmptyPreference(after, h);
    OwnerFirst(after, h);
  }

  lemma NonEmpty(points: Points, r: Ring, id: string)
    requires Consistent(points, r) && id in r.nodes
    ensures r.sorted != []
  {
    assert Holds(points, r, id);
    assert Point(points, id, 0) in r.sorted;
  }
}
