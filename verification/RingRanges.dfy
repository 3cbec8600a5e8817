/** The hash ranges reported for a node, and rebuilding a ring from its nodes. */
module RingRanges {
  import opened Wrappers
  import opened Seqs
  import opened RingModel
  import opened RingRouting
  import opened RingReplicas

  datatype Range = Range(first: int, last: int)

  /** A range may wrap past the end of the hash space. */
  predicate InRange(h: int, range: Range) {
    if range.first <= range.last then range.first <= h <= range.last else range.first <= h || h <= range.last
  }

  /** The range that ends at the i-th point, with the 64-bit wrap of the increment. */
  function Arc(sorted: seq<int>, i: nat): Range
    requires i < |sorted|
  {
    if 0 < i then Range((sorted[i - 1] + 1) % SPACE, sorted[i])
    else if |sorted| > 1 then Range((sorted[|sorted| - 1] + 1) % SPACE, sorted[i])
    else Range(0, sorted[i])
  }

  /** The ranges of the node's points among the first n. */
  function ArcsOf(r: Ring, id: string, n: nat): seq<Range>
    requires n <= |r.sorted|
  {
    if n == 0 then []
    else ArcsOf(r, id, n - 1) + (if Lookup(r.table, r.sorted[n - 1]) == id then [Arc(r.sorted, n - 1)] else [])
  }

  function GetHashRange(r: Ring, id: string): Option<seq<Range>> {
    if id !in r.nodes then None else Some(ArcsOf(r, id, |r.sorted|))
  }

  predicate Covers(ranges: seq<Range>, h: int) {
    exists k :: 0 <= k < |ranges| && InRange(h, ranges[k])
  }

  lemma {:induction false} ArcsCover(r: Ring, id: string, n: nat, h: int)
    requires n <= |r.sorted|
    ensures Covers(ArcsOf(r, id, n), h) <==>
            exists i :: 0 <= i < n && Lookup(r.table, r.sorted[i]) == id && InRange(h, Arc(r.sorted, i))
  {
    if n > 0 {
      ArcsCover(r, id, n - 1, h);
      var past, all := ArcsOf(r, id, n - 1), ArcsOf(r, id, n);
      assert past <= all;
      if Covers(past, h) {
        var k :| 0 <= k < |past| && InRange(h, past[k]);
        assert all[k] == past[k];
      }
      if Lookup(r.table, r.sorted[n - 1]) == id {
        assert all[|past|] == Arc(r.sorted, n - 1);
      }
    }
  }

  ghost predicate InSpace(sorted: seq<int>) {
    forall i :: 0 <= i < |sorted| ==> 0 <= sorted[i] < SPACE
  }

  /** The hash lies behind the point before i, or before the first and behind the last, and not behind point i. */
  ghost predicate Closest(sorted: seq<int>, h: int, i: nat)
    requires i < |sorted|
  {
    if i == 0 then h <= sorted[0] || sorted[|sorted| - 1] < h else sorted[i - 1] < h <= sorted[i]
  }

  lemma StartIsClosest(sorted: seq<int>, h: int, i: nat)
    requires Strict(sorted) && i < |sorted|
    ensures Start(sorted, h) == i <==> Closest(sorted, h, i)
  {
    var k, n := Search(sorted, h), |sorted|;
    if k < i - 1 { StrictAt(sorted, k, i - 1); }
    if i < k - 1 { StrictAt(sorted, i, k - 1); }
    if k < n - 1 { StrictAt(sorted, k, n - 1); }
  }

  lemma ArcIsClosest(sorted: seq<int>, h: int, i: nat)
    requires Strict(sorted) && InSpace(sorted) && 0 <= h < SPACE && i < |sorted| && 1 < |sorted|
    ensures InRange(h, Arc(sorted, i)) <==> Closest(sorted, h, i)
  {
    StrictAt(sorted, 0, |sorted| - 1);
    if 0 < i { StrictAt(sorted, i - 1, i); }
  }

  /** With two points or more, a hash is in the range that ends at the point its search starts from, and no other. */
  lemma ArcOfStart(sorted: seq<int>, h: int, i: nat)
    requires Strict(sorted) && InSpace(sorted) && 0 <= h < SPACE && i < |sorted| && 1 < |sorted|
    ensures InRange(h, Arc(sorted, i)) <==> Start(sorted, h) == i
  {
    StartIsClosest(sorted, h, i);
    ArcIsClosest(sorted, h, i);
  }

  lemma RangesExactAt(points: Points, r: Ring, id: string, h: int)
    requires Consistent(points, r) && Hashed(points) && 0 <= h < SPACE && 1 < |r.sorted| && id in r.nodes
    ensures Covers(GetHashRange(r, id).value, h) <==> GetNode(r, h) == Some(id)
  {
    PointsHashed(points, r);
    assert InSpace(r.sorted) by {
      forall i | 0 <= i < |r.sorted| ensures 0 <= r.sorted[i] < SPACE { assert r.sorted[i] in r.sorted; }
    }
    ArcsCover(r, id, |r.sorted|, h);
    var s := Start(r.sorted, h);
    forall i: nat | i < |r.sorted| ensures InRange(h, Arc(r.sorted, i)) <==> s == i {
      ArcOfStart(r.sorted, h, i);
    }
  }

  lemma SinglePoint(points: Points, r: Ring, id: string, h: int)
    requires Consistent(points, r) && Hashed(points) && 0 <= h < SPACE && |r.sorted| == 1 && id in r.nodes
    ensures GetNode(r, h) == Some(id) && (Covers(GetHashRange(r, id).value, h) <==> h <= r.sorted[0])
  {
    assert Holds(points, r, id);
    var p := Point(points, id, 0);
    assert p in r.sorted;
    assert r.sorted == [p];
    assert Start(r.sorted, h) == 0;
    ArcsCover(r, id, 1, h);
    assert Arc(r.sorted, 0) == Range(0, p);
  }

  /** The reported ranges of a node are exactly the hashes it owns, if and only if the ring has more than one point or
      its one point is the last of the space; otherwise the hashes after the one point are missing. */
  lemma RangesExact(points: Points, r: Ring, id: string)
    requires Consistent(points, r) && Hashed(points) && id in r.nodes
    ensures (forall h :: 0 <= h < SPACE ==> (Covers(GetHashRange(r, id).value, h) <==> GetNode(r, h) == Some(id)))
            <==> |r.sorted| > 1 || r.sorted == [SPACE - 1]
  {
    NonEmpty(points, r, id);
    PointsHashed(points, r);
    assert r.sorted[0] in r.sorted;
    if |r.sorted| > 1 {
      forall h | 0 <= h < SPACE ensures Covers(GetHashRange(r, id).value, h) <==> GetNode(r, h) == Some(id) {
        RangesExactAt(points, r, id, h);
      }
    } else {
      forall h | 0 <= h < SPACE
        ensures GetNode(r, h) == Some(id) && (Covers(GetHashRange(r, id).value, h) <==> h <= r.sorted[0])
      {
        SinglePoint(points, r, id, h);
      }
      assert r.sorted == [r.sorted[0]];
      if r.sorted[0] != SPACE - 1 {
        assert !Covers(GetHashRange(r, id).value, SPACE - 1);
      }
    }
  }

  // ----- rebuilding -----

  function EnterAll(points: Points, n: nat, order: seq<string>): map<int, string> {
    if order == [] then map[]
    else Enter(EnterAll(points, n, order[..|order| - 1]), order[|order| - 1], Marks(points, order[|order| - 1], n))
  }

  function MarksAll(points: Points, n: nat, order: seq<string>): seq<int> {
    if order == [] then [] else MarksAll(points, n, order[..|order| - 1]) + Marks(points, order[|order| - 1], n)
  }

  /** The ring Clone builds when it visits the nodes in this order. */
  function Rebuilt(points: Points, r: Ring, order: seq<string>): Ring {
    Ring(r.virtuals, EnterAll(points, r.virtuals, order), Sort(MarksAll(points, r.virtuals, order)), r.nodes)
  }

  ghost predicate Enumerates(order: seq<string>, ids: set<string>) {
    Unique(order) && forall id :: id in order <==> id in ids
  }

  function Among(nodes: map<string, Status>, order: seq<string>): map<string, Status> {
    map id | id in nodes && id in order :: nodes[id]
  }

  /** The part of a ring that a prefix of the order has built. */
  function Part(points: Points, r: Ring, order: seq<string>): Ring {
    Rebuilt(points, r, order).(nodes := Among(r.nodes, order))
  }

  lemma SortAgain(a: seq<int>, b: seq<int>)
    ensures Sort(Sort(a) + b) == Sort(a + b)
  {
    assert multiset(Sort(Sort(a) + b)) == multiset(Sort(a)) + multiset(b);
    assert multiset(Sort(a + b)) == multiset(a) + multiset(b);
    AscendingUnique(Sort(Sort(a) + b), Sort(a + b));
  }

  lemma AmongAdds(nodes: map<string, Status>, past: seq<string>, id: string)
    requires id in nodes
    ensures Among(nodes, past + [id]) == Among(nodes, past)[id := nodes[id]]
  {}

  lemma PartAdds(points: Points, r: Ring, past: seq<string>, id: string)
    requires id !in past && id in r.nodes
    ensures Part(points, r, past + [id]) == AddNode(points, Part(points, r, past), id, r.nodes[id]).0
  {
    assert (past + [id])[..|past|] == past;
    SortAgain(MarksAll(points, r.virtuals, past), Marks(points, id, r.virtuals));
    AmongAdds(r.nodes, past, id);
  }

  lemma OwnedOnce(points: Points, r: Ring, a: string, b: string, p: int)
    requires Holds(points, r, a) && Holds(points, r, b)
    requires exists i: nat :: i < r.virtuals && Point(points, a, i) == p
    requires exists i: nat :: i < r.virtuals && Point(points, b, i) == p
    ensures a == b
  {}

  /** A point of a node has no other owner in any part of a consistent ring. */
  lemma PartOwner(points: Points, r: Ring, part: Ring, id: string, i: nat)
    requires Consistent(points, r) && Consistent(points, part) && part.virtuals == r.virtuals && i < r.virtuals
    requires id in r.nodes && part.nodes.Keys <= r.nodes.Keys
    ensures var p := Point(points, id, i); p in part.table ==> part.table[p] == id && id in part.nodes
  {
    var p := Point(points, id, i);
    if p in part.table {
      assert Placed(points, part, p);
      assert part.table[p] in r.nodes.Keys;
      OwnedOnce(points, r, id, part.table[p], p);
    }
  }

  /** The nodes of a consistent ring stay apart from any part of it. */
  lemma PartApart(points: Points, r: Ring, part: Ring, id: string)
    requires Consistent(points, r) && Consistent(points, part) && part.virtuals == r.virtuals
    requires id in r.nodes && id !in part.nodes && part.nodes.Keys <= r.nodes.Keys
    ensures Apart(points, part, id)
  {
    assert Holds(points, r, id);
    var marks := Marks(points, id, r.virtuals);
    forall i: nat | i < |marks| ensures marks[i] !in part.table {
      PartOwner(points, r, part, id, i);
    }
  }

  lemma PartGrows(points: Points, r: Ring, past: seq<string>, id: string, part: Ring)
    requires Consistent(points, r) && part == Part(points, r, past) && Consistent(points, part)
    requires id in r.nodes && id !in past
    ensures Consistent(points, Part(points, r, past + [id]))
  {
    PartAdds(points, r, past, id);
    PartApart(points, r, part, id);
    AddConsistent(points, part, id, r.nodes[id]);
  }

  lemma {:induction false} PartConsistent(points: Points, r: Ring, order: seq<string>)
    requires Consistent(points, r) && Unique(order) && forall id :: id in order ==> id in r.nodes
    ensures Consistent(points, Part(points, r, order))
    decreases |order|
  {
    if order != [] {
      var past, id := order[..|order| - 1], order[|order| - 1];
      assert order == past + [id];
      assert id !in past;
      PartConsistent(points, r, past);
      PartGrows(points, r, past, id, Part(points, r, past));
    }
  }

  /** In whatever order the nodes are visited, the copy is the ring itself. */
  lemma CloneIsSame(points: Points, r: Ring, order: seq<string>)
    requires Consistent(points, r) && Enumerates(order, r.nodes.Keys)
    ensures Rebuilt(points, r, order) == r
  {
    PartConsistent(points, r, order);
    assert Part(points, r, order).nodes.Keys == r.nodes.Keys;
    Canonical(points, Part(points, r, order), r);
  }

  function Colliding(): Points {
    (id, i) => 7
  }

  lemma SweepNobody(id: string, p: int)
    requires id != ""
    ensures Sweep(map[], [p], id) == (map[], [p])
  {
    var none: map<int, string> := map[];
    assert [p][1..] == [];
    assert Lookup(none, p) == "";
    assert Sweep(none, [p], id).1 == [p] + [] == [p];
  }

  lemma SweepTwin()
    ensures Sweep(map[7 := "a"], [7, 7], "a") == (map[], [7])
  {
    var none: map<int, string> := map[];
    assert [7, 7][1..] == [7];
    assert map[7 := "a"] - {7} == none;
    SweepNobody("a", 7);
  }

  const TWIN := Ring(2, map[7 := "a"], [7, 7], map["a" := Active])
  const ORPHAN := Ring(2, map[], [7], map[])

  lemma SortedTwins(s: seq<int>)
    requires |s| == 2 && s[0] == s[1]
    ensures Sort(s) == s
  {
    var t := s[1..];
    assert t == [s[1]] && t[1..] == [];
    assert Ascending(t);
    AscendingUnique(Sort(s), s);
  }

  lemma EnteredTwins(id: string, s: seq<int>)
    requires |s| == 2 && s[0] == s[1]
    ensures Enter(map[], id, s) == map[s[0] := id]
  {
    var none: map<int, string> := map[];
    assert s[..1][..0] == [];
    assert Enter(none, id, s[..1]) == none[s[0] := id];
  }

  lemma AddedTwin()
    ensures AddNode(Colliding(), New(2), "a", Active).0 == TWIN
  {
    var marks := Marks(Colliding(), "a", 2);
    assert [] + marks == marks == [7, 7];
    SortedTwins(marks);
    EnteredTwins("a", marks);
  }

  lemma RemovedTwin()
    ensures RemoveNode(TWIN, "a").0 == ORPHAN
  {
    SweepTwin();
    assert TWIN.nodes - {"a"} == map[];
  }

  /** When a node's points collide, removing it leaves a point that belongs to nobody, and keys are routed there. */
  lemma CollisionLeavesOrphan(h: int)
    ensures var r := RemoveNode(AddNode(Colliding(), New(2), "a", Active).0, "a").0;
            r.nodes == map[] && r.table == map[] && r.sorted == [7] && GetNode(r, h) == Some("")
  {
    AddedTwin();
    RemovedTwin();
    assert Start(ORPHAN.sorted, h) == 0;
  }
}
