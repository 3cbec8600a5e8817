/** The ring as it is built: a table and a sorted slice of points, updated in place. */
module HashRing {
  import opened Wrappers
  import opened Seqs
  import opened RingModel
  import opened RingRouting
  import opened RingReplicas
  import opened RingRanges
  import opened RingWalk

  /** Binary search for the first point at or after the hash. */
  method SearchPoints(sorted: seq<int>, h: int) returns (i: nat)
    requires Ascending(sorted)
    ensures i == Search(sorted, h)
  {
    i := 0;
    var j := |sorted|;
    while i < j
      invariant i <= Search(sorted, h) <= j <= |sorted|
    {
      var mid := (i + j) / 2;
      if sorted[mid] < h {
        SearchAfter(sorted, h, mid);
        i := mid + 1;
      } else {
        j := mid;
      }
    }
  }

  lemma SearchAfter(sorted: seq<int>, h: int, mid: nat)
    requires Ascending(sorted) && mid < |sorted| && sorted[mid] < h
    ensures mid < Search(sorted, h)
  {
    var i := Search(sorted, h);
    if i < mid { AscendingAt(sorted, i, mid); }
  }

  class HashRing {
    const points: Points
    const virtualNodes: nat
    var table: map<int, string>
    var sorted: seq<int>
    var nodes: map<string, Status>

    ghost function Model(): Ring
      reads this
    {
      Ring(virtualNodes, table, sorted, nodes)
    }

    constructor (points: Points, virtuals: int)
      ensures Model() == New(virtuals) && this.points == points
      ensures virtualNodes == if virtuals <= 0 then 150 else virtuals
    {
      this.points := points;
      virtualNodes := if virtuals <= 0 then 150 else virtuals;
      table, sorted, nodes := map[], [], map[];
    }

    method AddNode(id: string, status: Status) returns (added: bool)
      modifies this
      ensures (Model(), added) == RingModel.AddNode(points, old(Model()), id, status)
      ensures added <==> id !in old(nodes)
    {
      if id in nodes {
        return false;
      }
      nodes := nodes[id := status];
      PlaceAll(id);
      sorted := Sort(sorted);
      added := true;
    }

    method RemoveNode(id: string) returns (removed: bool)
      modifies this
      ensures (Model(), removed) == RingModel.RemoveNode(old(Model()), id)
      ensures removed <==> id in old(nodes)
    {
      if id !in nodes {
        return false;
      }
      var kept := [];
      var i := 0;
      assert sorted[0..] == sorted;
      ghost var rest := Sweep(table, sorted, id);
      while i < |sorted|
        invariant i <= |sorted| && sorted == old(sorted) && nodes == old(nodes)
        invariant rest == Sweep(table, sorted[i..], id)
        invariant rest.0 == Sweep(old(table), sorted, id).0 && kept + rest.1 == Sweep(old(table), sorted, id).1
      {
        var hash := sorted[i];
        assert sorted[i..][0] == hash && sorted[i..][1..] == sorted[i + 1..];
        if Lookup(table, hash) != id {
          kept := kept + [hash];
        } else {
          table := table - {hash};
        }
        i := i + 1;
        rest := Sweep(table, sorted[i..], id);
      }
      assert sorted[i..] == [] && kept + [] == kept;
      sorted := kept;
      nodes := nodes - {id};
      removed := true;
    }

    method GetNode(h: int) returns (owner: Option<string>)
      requires Ascending(sorted)
      ensures owner == RingRouting.GetNode(Model(), h) && (owner.None? <==> sorted == [])
    {
      if sorted == [] {
        return None;
      }
      var i := SearchPoints(sorted, h);
      if i == |sorted| {
        i := 0;
      }
      return Some(Lookup(table, sorted[i]));
    }

    method GetNodes(h: int, count: int) returns (replicas: Option<seq<string>>)
      requires Ascending(sorted) && (nodes != map[] ==> Enough(Model(), Wanted(count)))
      ensures replicas == RingRouting.GetNodes(Model(), h, count)
    {
      if |nodes| == 0 {
        return None;
      }
      var idx := SearchPoints(sorted, h);
      if idx == |sorted| {
        idx := 0;
      }
      var result := CollectUnique(Ring(virtualNodes, table, sorted, nodes), h, idx, if count <= 0 then 1 else count);
      if |result| == 0 {
        return None;
      }
      return Some(result);
    }

    method GetHashRange(id: string) returns (ranges: Option<seq<Range>>)
      requires forall i :: 0 <= i < |sorted| ==> 0 <= sorted[i] < SPACE
      ensures ranges == RingRanges.GetHashRange(Model(), id) && (ranges.None? <==> id !in nodes)
    {
      if id !in nodes {
        return None;
      }
      var found: seq<Range>, prev := [], 0;
      var i := 0;
      while i < |sorted|
        invariant i <= |sorted| && found == ArcsOf(Model(), id, i) && (0 < i ==> prev == sorted[i - 1])
      {
        var hash := sorted[i];
        if Lookup(table, hash) == id {
          var start: int;
          if i == 0 {
            if |sorted| > 1 {
              start := (sorted[|sorted| - 1] + 1) % SPACE;
            } else {
              start := 0;
            }
          } else {
            start := (prev + 1) % SPACE;
          }
          found := found + [Range(start, hash)];
        }
        prev := hash;
        i := i + 1;
      }
      return Some(found);
    }

    /** The nodes are visited in no particular order. */
    method Clone() returns (copy: HashRing)
      requires 0 < virtualNodes
      ensures fresh(copy) && copy.points == points
      ensures exists order :: Enumerates(order, nodes.Keys) && copy.Model() == Rebuilt(points, Model(), order)
      ensures Consistent(points, Model()) ==> copy.Model() == Model()
    {
      copy := new HashRing(points, virtualNodes);
      copy.nodes := nodes;
      ghost var order := copy.PlaceNodes(nodes.Keys);
      copy.sorted := Sort(copy.sorted);
      if Consistent(points, Model()) {
        CloneIsSame(points, Model(), order);
      }
    }

    /** The loop of Clone, on the copy. */
    method PlaceNodes(ids: set<string>) returns (ghost order: seq<string>)
      requires table == map[] && sorted == []
      modifies `table, `sorted
      ensures Enumerates(order, ids)
      ensures table == EnterAll(points, virtualNodes, order) && sorted == MarksAll(points, virtualNodes, order)
    {
      var rest := ids;
      order := [];
      while rest != {}
        invariant rest <= ids && Enumerates(order, ids - rest)
        invariant table == EnterAll(points, virtualNodes, order) && sorted == MarksAll(points, virtualNodes, order)
      {
        var id :| id in rest;
        PlaceAll(id);
        rest := rest - {id};
        assert (order + [id])[..|order|] == order;
        order := order + [id];
      }
      assert ids - rest == ids;
    }

    /** Enters the points of a node, without sorting. */
    method PlaceAll(id: string)
      modifies `table, `sorted
      ensures table == Enter(old(table), id, Marks(points, id, virtualNodes))
      ensures sorted == old(sorted) + Marks(points, id, virtualNodes)
    {
      var i := 0;
      while i < virtualNodes
        invariant i <= virtualNodes
        invariant table == Enter(old(table), id, Marks(points, id, i))
        invariant sorted == old(sorted) + Marks(points, id, i)
      {
        var hash := points(id, i);
        table := table[hash := id];
        sorted := sorted + [hash];
        i := i + 1;
        assert Marks(points, id, i)[..i - 1] == Marks(points, id, i - 1);
        assert Marks(points, id, i) == Marks(points, id, i - 1) + [hash];
      }
    }
  }

  /** The loop of GetNodes. */
  method CollectUnique(r: Ring, ghost h: int, start: nat, wanted: nat) returns (result: seq<string>)
    requires Ascending(r.sorted) && start == Start(r.sorted, h) && Enough(r, wanted)
    ensures result == Replicas(r, h, wanted)
  {
    ghost var t: nat := 0;
    var idx := start;
    var met: set<string> := {};
    result := [];
    while |result| < wanted && |met| < |r.nodes|
      invariant t <= |r.sorted| && Loop(idx, met, result) == After(r, start, t)
      invariant |result| <= wanted && |met| <= |r.nodes|
      decreases |r.sorted| - t
    {
      StillInFirstTurn(r, h, wanted, t, Loop(idx, met, result));
      NextRound(r, start, t, Loop(idx, met, result));
      idx, met, result := OneRound(r, idx, met, result);
      t := t + 1;
    }
    StopsWithReplicas(r, h, t, wanted, Loop(idx, met, result));
  }

  /** The body of the loop. */
  method OneRound(r: Ring, idx: nat, met: set<string>, result: seq<string>)
    returns (idxNow: nat, metNow: set<string>, resultNow: seq<string>)
    requires idx < |r.sorted|
    ensures Loop(idxNow, metNow, resultNow) == Round(r, Loop(idx, met, result))
    ensures |metNow| <= |met| + 1 && |resultNow| <= |result| + 1
  {
    metNow, resultNow := met, result;
    var node := Lookup(r.table, r.sorted[idx]);
    if node !in met {
      metNow := met + {node};
      if node in r.nodes && r.nodes[node].Active? {
        resultNow := result + [node];
      }
    }
    idxNow := (idx + 1) % |r.sorted|;
  }
}
