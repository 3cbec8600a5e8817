/** The consistent-hashing ring: its points, who owns them, and adding and removing nodes. */
module RingModel {
  import opened Seqs

  /** The number of hash values. */
  const SPACE: int := 0x1_0000_0000_0000_0000

  datatype Status = Active | Inactive | Failed | Draining

  /** Where the hash function puts the numbered virtual nodes of a node. */
  type Points = (string, nat) -> int

  datatype Ring = Ring(virtuals: nat, table: map<int, string>, sorted: seq<int>, nodes: map<string, Status>)

  function New(virtuals: int): Ring {
    Ring(if virtuals <= 0 then 150 else virtuals, map[], [], map[])
  }

  function Point(points: Points, id: string, i: nat): int {
    points(id, i)
  }

  function Marks(points: Points, id: string, n: nat): seq<int> {
    seq(n, (i: nat) => Point(points, id, i))
  }

  function Enter(table: map<int, string>, id: string, marks: seq<int>): map<int, string> {
    if marks == [] then table else Enter(table, id, marks[..|marks| - 1])[marks[|marks| - 1] := id]
  }

  /** A node's points are added to the ring; the answer is whether the node was new. */
  function AddNode(points: Points, r: Ring, id: string, status: Status): (Ring, bool) {
    if id in r.nodes then (r, false) else
    var marks := Marks(points, id, r.virtuals);
    (Ring(r.virtuals, Enter(r.table, id, marks), Sort(r.sorted + marks), r.nodes[id := status]), true)
  }

  /** Reading an absent point gives the empty name. */
  function Lookup(table: map<int, string>, p: int): string {
    if p in table then table[p] else ""
  }

  /** One pass over the sorted points, deleting from the table as it goes. */
  function Sweep(table: map<int, string>, hashes: seq<int>, id: string): (map<int, string>, seq<int>) {
    if hashes == [] then (table, [])
    else if Lookup(table, hashes[0]) != id then
      var rest := Sweep(table, hashes[1..], id);
      (rest.0, [hashes[0]] + rest.1)
    else Sweep(table - {hashes[0]}, hashes[1..], id)
  }

  function RemoveNode(r: Ring, id: string): (Ring, bool) {
    if id !in r.nodes then (r, false) else
    var swept := Sweep(r.table, r.sorted, id);
    (Ring(r.virtuals, swept.0, swept.1, r.nodes - {id}), true)
  }

  // ----- consistency -----

  ghost predicate Placed(points: Points, r: Ring, p: int) {
    p in r.table ==> r.table[p] in r.nodes && exists i: nat :: i < r.virtuals && Point(points, r.table[p], i) == p
  }

  ghost predicate Holds(points: Points, r: Ring, id: string) {
    && Unique(Marks(points, id, r.virtuals))
    && forall i: nat :: i < r.virtuals ==> Point(points, id, i) in r.table && r.table[Point(points, id, i)] == id
  }

  /** The sorted points are the table's points, each once, and every node owns all of its points and no others. */
  ghost predicate Consistent(points: Points, r: Ring) {
    && 0 < r.virtuals && Strict(r.sorted)
    && (forall p :: p in r.sorted <==> p in r.table)
    && (forall p :: Placed(points, r, p))
    && (forall id :: id in r.nodes ==> Holds(points, r, id))
  }

  /** The new node's points meet neither each other nor the ring. */
  ghost predicate Apart(points: Points, r: Ring, id: string) {
    var marks := Marks(points, id, r.virtuals);
    Unique(marks) && forall p :: p in marks ==> p !in r.table
  }

  function Others(table: map<int, string>, id: string): int -> bool {
    p => Lookup(table, p) != id
  }

  lemma {:induction false} EnterTable(table: map<int, string>, id: string, marks: seq<int>)
    ensures forall p :: p in Enter(table, id, marks) <==> p in table || p in marks
    ensures forall p :: p in marks ==> Enter(table, id, marks)[p] == id
    ensures forall p :: p in table && p !in marks ==> Enter(table, id, marks)[p] == table[p]
  {
    if marks != [] {
      EnterTable(table, id, marks[..|marks| - 1]);
      assert marks == marks[..|marks| - 1] + [marks[|marks| - 1]];
    }
  }

  lemma SortMembers(s: seq<int>, t: seq<int>)
    ensures forall p :: p in Sort(s + t) <==> p in s || p in t
  {
    SameMembers(Sort(s + t), multiset(s + t));
    assert forall p :: p in multiset(s + t) <==> p in s + t;
  }

  lemma SortStrict(s: seq<int>, t: seq<int>)
    ensures Strict(Sort(s + t)) <==> Unique(s) && Unique(t) && forall p :: p in s ==> p !in t
  {
    UniqueCount(s);
    UniqueCount(t);
    UniqueCount(Sort(s + t));
    assert multiset(Sort(s + t)) == multiset(s) + multiset(t);
    forall p ensures multiset(s + t)[p] == multiset(s)[p] + multiset(t)[p] {}
    assert forall p :: p in s <==> multiset(s)[p] >= 1;
    assert forall p :: p in t <==> multiset(t)[p] >= 1;
  }

  lemma AddHolds(points: Points, r: Ring, id: string, status: Status, n: string)
    requires Apart(points, r, id) && id !in r.nodes && (n == id || Holds(points, r, n))
    ensures Holds(points, AddNode(points, r, id, status).0, n)
  {
    var marks := Marks(points, id, r.virtuals);
    EnterTable(r.table, id, marks);
    forall i: nat | i < r.virtuals
      ensures Point(points, n, i) in Enter(r.table, id, marks) && Enter(r.table, id, marks)[Point(points, n, i)] == n
    {
      if n == id { assert marks[i] in marks; }
    }
  }

  lemma AddPlaced(points: Points, r: Ring, id: string, status: Status, p: int)
    requires id !in r.nodes && Placed(points, r, p)
    ensures Placed(points, AddNode(points, r, id, status).0, p)
  {
    var marks := Marks(points, id, r.virtuals);
    EnterTable(r.table, id, marks);
    if p in marks {
      var i: nat :| i < |marks| && marks[i] == p;
    }
  }

  /** Adding a node keeps the ring consistent if and only if its points collide with nothing. */
  lemma AddConsistent(points: Points, r: Ring, id: string, status: Status)
    requires Consistent(points, r) && id !in r.nodes
    ensures Consistent(points, AddNode(points, r, id, status).0) <==> Apart(points, r, id)
  {
    var marks, after := Marks(points, id, r.virtuals), AddNode(points, r, id, status).0;
    SortStrict(r.sorted, marks);
    if Apart(points, r, id) {
      EnterTable(r.table, id, marks);
      SortMembers(r.sorted, marks);
      forall p ensures Placed(points, after, p) { AddPlaced(points, r, id, status, p); }
      forall n | n in after.nodes ensures Holds(points, after, n) { AddHolds(points, r, id, status, n); }
    }
  }

  /** The pass removes exactly the node's points, when no point occurs twice or the name is empty. */
  lemma {:induction false} SweepExact(table: map<int, string>, hashes: seq<int>, id: string)
    requires id == "" || Unique(hashes)
    ensures Sweep(table, hashes, id).1 == Filter(Others(table, id), hashes)
    ensures forall p :: p in Sweep(table, hashes, id).0 <==> p in table && !(p in hashes && table[p] == id)
    ensures forall p :: p in Sweep(table, hashes, id).0 ==> Sweep(table, hashes, id).0[p] == table[p]
    decreases hashes
  {
    if hashes != [] {
      var first, rest := hashes[0], hashes[1..];
      assert hashes == [first] + rest;
      assert id == "" || first !in rest;
      if Lookup(table, first) != id {
        SweepExact(table, rest, id);
      } else {
        SweepExact(table - {first}, rest, id);
        FilterSame(Others(table - {first}, id), Others(table, id), rest);
      }
    }
  }

  lemma {:induction false} SweepMembers(table: map<int, string>, hashes: seq<int>, id: string)
    ensures forall p :: p in Sweep(table, hashes, id).1 ==> p in hashes
    decreases hashes
  {
    if hashes != [] {
      assert hashes == [hashes[0]] + hashes[1..];
      SweepMembers(if Lookup(table, hashes[0]) != id then table else table - {hashes[0]}, hashes[1..], id);
    }
  }

  /** The pass keeps the points in order, with or without collisions. */
  lemma {:induction false} SweepAscending(table: map<int, string>, hashes: seq<int>, id: string)
    requires Ascending(hashes)
    ensures Ascending(Sweep(table, hashes, id).1)
    decreases hashes
  {
    if hashes != [] {
      var left := if Lookup(table, hashes[0]) != id then table else table - {hashes[0]};
      SweepAscending(left, hashes[1..], id);
      SweepMembers(left, hashes[1..], id);
      if Lookup(table, hashes[0]) != id {
        assert Sweep(table, hashes, id).1[1..] == Sweep(table, hashes[1..], id).1;
      }
    }
  }

  lemma RemoveHolds(points: Points, r: Ring, id: string, n: string)
    requires Unique(r.sorted) && id in r.nodes && n != id && Holds(points, r, n)
    ensures Holds(points, RemoveNode(r, id).0, n)
  {
    SweepExact(r.table, r.sorted, id);
    forall i: nat | i < r.virtuals
      ensures Point(points, n, i) in RemoveNode(r, id).0.table && RemoveNode(r, id).0.table[Point(points, n, i)] == n
    {
      assert Point(points, n, i) in r.table && r.table[Point(points, n, i)] == n;
    }
  }

  lemma RemovePlaced(points: Points, r: Ring, id: string, p: int)
    requires Unique(r.sorted) && id in r.nodes && Placed(points, r, p) && (p in r.table ==> p in r.sorted)
    ensures Placed(points, RemoveNode(r, id).0, p)
  {
    SweepExact(r.table, r.sorted, id);
  }

  lemma RemoveConsistent(points: Points, r: Ring, id: string)
    requires Consistent(points, r)
    ensures Consistent(points, RemoveNode(r, id).0)
  {
    if id in r.nodes {
      var after := RemoveNode(r, id).0;
      forall p ensures Placed(points, after, p) { RemovePlaced(points, r, id, p); }
      forall n | n in after.nodes ensures Holds(points, after, n) { RemoveHolds(points, r, id, n); }
      var others := Others(r.table, id);
      SweepExact(r.table, r.sorted, id);
      FilterMembers(others, r.sorted);
      FilterAscending(others, r.sorted);
      FilterUnique(others, r.sorted);
    }
  }

  // ----- adding and then removing -----

  /** What removal deletes from the table stays deleted. */
  lemma {:induction false} SweepDeletes(table: map<int, string>, hashes: seq<int>, id: string, p: int)
    requires p in hashes && p in table && table[p] == id
    ensures p !in Sweep(table, hashes, id).0
    decreases hashes
  {
    assert hashes == [hashes[0]] + hashes[1..];
    if hashes[0] == p {
      SweepOnlyDeletes(table - {p}, hashes[1..], id);
    } else if Lookup(table, hashes[0]) != id {
      SweepDeletes(table, hashes[1..], id, p);
    } else {
      SweepDeletes(table - {hashes[0]}, hashes[1..], id, p);
    }
  }

  lemma {:induction false} SweepOnlyDeletes(table: map<int, string>, hashes: seq<int>, id: string)
    ensures Sweep(table, hashes, id).0.Keys <= table.Keys
    decreases hashes
  {
    if hashes != [] {
      if Lookup(table, hashes[0]) != id {
        SweepOnlyDeletes(table, hashes[1..], id);
      } else {
        SweepOnlyDeletes(table - {hashes[0]}, hashes[1..], id);
      }
    }
  }

  /** A point that is not in the table is not taken for the node's, so it is left on the ring. */
  lemma {:induction false} SweepLeaves(table: map<int, string>, hashes: seq<int>, id: string, p: int)
    requires p in hashes && p !in table && id != ""
    ensures p in Sweep(table, hashes, id).1
    decreases hashes
  {
    assert hashes == [hashes[0]] + hashes[1..];
    if hashes[0] != p {
      SweepLeaves(if Lookup(table, hashes[0]) != id then table else table - {hashes[0]}, hashes[1..], id, p);
    }
  }

  lemma {:induction false} SweepDangles(table: map<int, string>, hashes: seq<int>, id: string, i: nat, j: nat)
    requires i < j < |hashes| && hashes[i] == hashes[j] && hashes[i] in table && table[hashes[i]] == id && id != ""
    ensures hashes[i] in Sweep(table, hashes, id).1
    decreases hashes
  {
    var p, rest := hashes[i], hashes[1..];
    if hashes[0] == p {
      assert rest[j - 1] == p;
      SweepLeaves(table - {p}, rest, id, p);
    } else {
      SweepDangles(if Lookup(table, hashes[0]) != id then table else table - {hashes[0]}, rest, id, i - 1, j - 1);
    }
  }

  /** Removing the node just added gives back the ring as it was, if and only if the node's points met no point of the
      ring and, unless the node's name is empty, not each other. */
  lemma RemoveUndoesAdd(points: Points, r: Ring, id: string, status: Status)
    requires Consistent(points, r) && id !in r.nodes
    ensures var marks := Marks(points, id, r.virtuals);
            RemoveNode(AddNode(points, r, id, status).0, id) == (r, true)
            <==> (forall p :: p in marks ==> p !in r.table) && (id == "" || Unique(marks))
  {
    var marks, after := Marks(points, id, r.virtuals), AddNode(points, r, id, status).0;
    EnterTable(r.table, id, marks);
    SortMembers(r.sorted, marks);
    var back := RemoveNode(after, id).0;
    if p :| p in marks && p in r.table {
      SweepDeletes(after.table, after.sorted, id, p);
    } else if id != "" && !Unique(marks) {
      UniqueCount(marks);
      var p :| multiset(marks)[p] > 1;
      assert multiset(after.sorted) == multiset(r.sorted) + multiset(marks);
      TwoPositions(after.sorted, p);
      var i: nat, j: nat :| i < j < |after.sorted| && after.sorted[i] == p && after.sorted[j] == p;
      assert p in multiset(marks);
      SweepDangles(after.table, after.sorted, id, i, j);
      assert p !in r.sorted;
    } else {
      Undone(points, r, id, status);
    }
  }

  lemma Undone(points: Points, r: Ring, id: string, status: Status)
    requires Consistent(points, r) && id !in r.nodes
    requires var marks := Marks(points, id, r.virtuals);
             (forall p :: p in marks ==> p !in r.table) && (id == "" || Unique(marks))
    ensures RemoveNode(AddNode(points, r, id, status).0, id).0 == r
  {
    NoneOwned(points, r, id);
    SweepUndone(r.table, id, Marks(points, id, r.virtuals), r.sorted);
    assert r.nodes[id := status] - {id} == r.nodes;
  }

  lemma NoneOwned(points: Points, r: Ring, id: string)
    requires Consistent(points, r) && id !in r.nodes
    ensures forall p :: p in r.table ==> r.table[p] != id
  {
    forall p | p in r.table ensures r.table[p] != id {
      assert Placed(points, r, p);
    }
  }

  lemma SweepUndone(table: map<int, string>, id: string, marks: seq<int>, sorted: seq<int>)
    requires Strict(sorted) && (forall p :: p in sorted <==> p in table) && (forall p :: p in table ==> table[p] != id)
    requires (forall p :: p in marks ==> p !in table) && (id == "" || Unique(marks))
    ensures Sweep(Enter(table, id, marks), Sort(sorted + marks), id) == (table, sorted)
  {
    var hashes := Sort(sorted + marks);
    assert id == "" || Unique(hashes) by { SortStrict(sorted, marks); }
    SweepExact(Enter(table, id, marks), hashes, id);
    SortedUndone(table, id, marks, sorted);
    assert forall p :: p in hashes <==> p in table || p in marks by { SortMembers(sorted, marks); }
    TableUndone(table, id, marks, hashes);
  }

  lemma TableUndone(table: map<int, string>, id: string, marks: seq<int>, hashes: seq<int>)
    requires id == "" || Unique(hashes)
    requires forall p :: p in hashes <==> p in table || p in marks
    requires forall p :: p in marks ==> p !in table
    requires forall p :: p in table ==> table[p] != id
    ensures Sweep(Enter(table, id, marks), hashes, id).0 == table
  {
    EnterTable(table, id, marks);
    SweepExact(Enter(table, id, marks), hashes, id);
    var back := Sweep(Enter(table, id, marks), hashes, id).0;
    forall p ensures p in back <==> p in table {}
    forall p | p in table ensures back[p] == table[p] {}
  }

  lemma SortedUndone(table: map<int, string>, id: string, marks: seq<int>, sorted: seq<int>)
    requires Ascending(sorted) && forall p :: p in sorted ==> p in table && p !in marks && table[p] != id
    ensures Filter(Others(Enter(table, id, marks), id), Sort(sorted + marks)) == sorted
  {
    EnterTable(table, id, marks);
    var others, all := Others(Enter(table, id, marks), id), Sort(sorted + marks);
    FilterAscending(others, all);
    forall p ensures multiset(Filter(others, all))[p] == multiset(sorted)[p] {
      FilterCount(others, all, p);
      assert multiset(all)[p] == multiset(sorted)[p] + multiset(marks)[p];
      assert p in multiset(marks) <==> p in marks;
      assert p in multiset(sorted) <==> p in sorted;
    }
    AscendingUnique(Filter(others, all), sorted);
  }
}
