/** The walk that collects the replicas of a key: when it ends, on any ring, and with what. */
module RingWalk {
  import opened Seqs
  import opened RingModel
  import opened RingRouting
  import opened Sets

  // ----- the rounds of the loop -----

  /** The place the loop is at, the names met so far, and the active nodes among them in order. */
  datatype Loop = Loop(idx: nat, met: set<string>, result: seq<string>)

  function NextIndex(i: nat, n: nat): nat {
    if i + 1 < n then i + 1 else 0
  }

  function Meet(nodes: map<string, Status>, node: string, met: set<string>, result: seq<string>): seq<string> {
    if node !in met && Up(nodes)(node) then result + [node] else result
  }

  /** One round of the loop. */
  function Round(r: Ring, l: Loop): (next: Loop)
    requires l.idx < |r.sorted|
    ensures next.idx < |r.sorted|
  {
    var node := Lookup(r.table, r.sorted[l.idx]);
    Loop(NextIndex(l.idx, |r.sorted|), l.met + {node}, Meet(r.nodes, node, l.met, l.result))
  }

  /** The loop after some rounds, as if it never stopped. */
  function After(r: Ring, start: nat, rounds: nat): (l: Loop)
    requires start < |r.sorted|
    ensures l.idx < |r.sorted|
  {
    if rounds == 0 then Loop(start, {}, []) else Round(r, After(r, start, rounds - 1))
  }

  /** The loop stops with enough active nodes, or with as many names as there are nodes. */
  predicate Stops(r: Ring, wanted: nat, l: Loop) {
    |l.result| >= wanted || |l.met| >= |r.nodes|
  }

  ghost predicate Ends(r: Ring, h: int, wanted: nat)
    requires r.sorted != []
  {
    exists rounds: nat :: Stops(r, wanted, After(r, Start(r.sorted, h), rounds))
  }

  // ----- when it ends -----

  /** The names read at the points of the ring, the empty one included. */
  function NamesRead(r: Ring): set<string> {
    set i | 0 <= i < |r.sorted| :: Lookup(r.table, r.sorted[i])
  }

  function ActiveRead(r: Ring): set<string> {
    set x | x in NamesRead(r) && Up(r.nodes)(x)
  }

  /** There are points, and enough active nodes own some or as many names are read there as there are nodes. */
  predicate Enough(r: Ring, wanted: nat) {
    r.sorted != [] && (|ActiveRead(r)| >= wanted || |NamesRead(r)| >= |r.nodes|)
  }

  function ActiveOf(nodes: map<string, Status>, met: set<string>): set<string> {
    set x | x in met && Up(nodes)(x)
  }

  /** The result lists the active nodes met, each once. */
  ghost predicate Lists(nodes: map<string, Status>, met: set<string>, result: seq<string>) {
    Unique(result) && forall x :: x in result <==> x in ActiveOf(nodes, met)
  }

  lemma MeetLists(nodes: map<string, Status>, node: string, met: set<string>, result: seq<string>)
    requires Lists(nodes, met, result)
    ensures Lists(nodes, met + {node}, Meet(nodes, node, met, result))
  {
    var more := Meet(nodes, node, met, result);
    forall x ensures x in more <==> x in ActiveOf(nodes, met + {node}) {
      assert x in result <==> x in ActiveOf(nodes, met);
    }
    if node in met {
      assert met + {node} == met;
    } else {
      assert node !in ActiveOf(nodes, met);
    }
  }

  lemma {:induction false} RoundsBounded(r: Ring, start: nat, rounds: nat)
    requires start < |r.sorted|
    ensures var l := After(r, start, rounds); l.met <= NamesRead(r) && Lists(r.nodes, l.met, l.result)
  {
    if rounds > 0 {
      RoundsBounded(r, start, rounds - 1);
      var l := After(r, start, rounds - 1);
      MeetLists(r.nodes, Lookup(r.table, r.sorted[l.idx]), l.met, l.result);
    }
  }

  lemma NeverMore(r: Ring, start: nat, rounds: nat, wanted: nat)
    requires start < |r.sorted| && Stops(r, wanted, After(r, start, rounds))
    ensures Enough(r, wanted)
  {
    var l := After(r, start, rounds);
    RoundsBounded(r, start, rounds);
    UniqueSize(l.result, ActiveOf(r.nodes, l.met));
    SubsetSize(ActiveOf(r.nodes, l.met), ActiveRead(r));
    SubsetSize(l.met, NamesRead(r));
  }

  /** A place on the ring, at most once past the end. */
  function Wrap(i: nat, n: nat): nat {
    if i < n then i else i - n
  }

  lemma {:induction false} PlaceAfter(r: Ring, start: nat, rounds: nat)
    requires start < |r.sorted| && rounds <= |r.sorted|
    ensures After(r, start, rounds).idx == Wrap(start + rounds, |r.sorted|)
  {
    if rounds > 0 { PlaceAfter(r, start, rounds - 1); }
  }

  lemma {:induction false} MetStaysMet(r: Ring, start: nat, fewer: nat, more: nat)
    requires start < |r.sorted| && fewer <= more
    ensures After(r, start, fewer).met <= After(r, start, more).met
    decreases more
  {
    if fewer < more { MetStaysMet(r, start, fewer, more - 1); }
  }

  /** Every place is met within one turn. */
  lemma PlaceIsMet(r: Ring, start: nat, i: nat)
    requires start < |r.sorted| && i < |r.sorted|
    ensures Lookup(r.table, r.sorted[i]) in After(r, start, |r.sorted|).met
  {
    var rounds := if start <= i then i - start else |r.sorted| + i - start;
    PlaceAfter(r, start, rounds);
    assert Lookup(r.table, r.sorted[i]) in After(r, start, rounds + 1).met;
    MetStaysMet(r, start, rounds + 1, |r.sorted|);
  }

  lemma AllMetInOneTurn(r: Ring, start: nat)
    requires start < |r.sorted|
    ensures After(r, start, |r.sorted|).met == NamesRead(r)
  {
    forall i | 0 <= i < |r.sorted| ensures Lookup(r.table, r.sorted[i]) in After(r, start, |r.sorted|).met {
      PlaceIsMet(r, start, i);
    }
    RoundsBounded(r, start, |r.sorted|);
  }

  /** On any ring with points the loop ends, and within one turn, if and only if enough active nodes own points or as
      many names are read there as there are nodes; where the key lies does not matter. */
  lemma WalkEndsExactly(r: Ring, h: int, wanted: nat)
    requires r.sorted != []
    ensures Ends(r, h, wanted) <==> Enough(r, wanted)
    ensures Ends(r, h, wanted) ==> Stops(r, wanted, After(r, Start(r.sorted, h), |r.sorted|))
  {
    var start := Start(r.sorted, h);
    if rounds: nat :| Stops(r, wanted, After(r, start, rounds)) {
      NeverMore(r, start, rounds, wanted);
    }
    AllMetInOneTurn(r, start);
    RoundsBounded(r, start, |r.sorted|);
    UniqueSize(After(r, start, |r.sorted|).result, ActiveRead(r));
  }

  /** A consistent ring with a node always has enough. */
  lemma ConsistentEnough(points: Points, r: Ring, wanted: nat)
    requires Consistent(points, r) && r.nodes != map[]
    ensures Ascending(r.sorted) && Enough(r, wanted)
  {
    var id :| id in r.nodes;
    NonEmpty(points, r, id);
    forall n | n in r.nodes ensures n in NamesRead(r) {
      assert Holds(points, r, n);
      assert Point(points, n, 0) in r.sorted;
    }
    SubsetSize(r.nodes.Keys, NamesRead(r));
    assert |r.nodes| == |r.nodes.Keys|;
  }

  /** Where every point reads the same name and there is another node, two replicas are never found. */
  lemma OneNameNeverEnds(r: Ring, h: int, name: string)
    requires r.sorted != [] && |r.nodes| > 1 && forall p :: p in r.sorted ==> Lookup(r.table, p) == name
    ensures !Ends(r, h, 2)
  {
    assert NamesRead(r) <= {name} by {
      forall i | 0 <= i < |r.sorted| ensures Lookup(r.table, r.sorted[i]) == name {
        assert r.sorted[i] in r.sorted;
      }
    }
    SubsetSize(NamesRead(r), {name});
    SubsetSize(ActiveRead(r), NamesRead(r));
    WalkEndsExactly(r, h, 2);
  }

  function AtFive(): Points {
    (id: string, i: nat) => 5
  }

  /** Two nodes with one point between them: the walk for two replicas meets the second node only, for ever. */
  lemma CollidingRingNeverEnds(h: int)
    ensures var r := AddNode(AtFive(), AddNode(AtFive(), New(1), "a", Active).0, "b", Active).0;
            r.sorted != [] && !Ends(r, h, 2)
  {
    var one := AddNode(AtFive(), New(1), "a", Active).0;
    var r := AddNode(AtFive(), one, "b", Active).0;
    assert Marks(AtFive(), "a", 1) == [5] && Marks(AtFive(), "b", 1) == [5];
    EnterTable(one.table, "b", [5]);
    SortMembers([], [5]);
    assert [] + [5] == [5];
    SortMembers(one.sorted, [5]);
    assert 5 in r.sorted && "a" in r.nodes && "b" in r.nodes && r.nodes == map["a" := Active, "b" := Active];
    assert |r.nodes| == 2;
    OneNameNeverEnds(r, h, "b");
  }

  lemma NextRound(r: Ring, start: nat, t: nat, l: Loop)
    requires start < |r.sorted| && l == After(r, start, t)
    ensures Round(r, l) == After(r, start, t + 1)
  {}

  /** As long as the loop goes on, its first turn is not over. */
  lemma StillInFirstTurn(r: Ring, h: int, wanted: nat, t: nat, l: Loop)
    requires Enough(r, wanted) && t <= |r.sorted| && l == After(r, Start(r.sorted, h), t) && !Stops(r, wanted, l)
    ensures t < |r.sorted|
  {
    WalkEndsExactly(r, h, wanted);
  }

  // ----- what it ends with -----

  function WalkOwners(r: Ring, h: int): seq<string> {
    Owners(r.table, Walk(r.sorted, h))
  }

  lemma RotateAt(sorted: seq<int>, i: nat, t: nat)
    requires i < |sorted| && t < |sorted|
    ensures |sorted[i..] + sorted[..i]| == |sorted| && (sorted[i..] + sorted[..i])[t] == sorted[Wrap(i + t, |sorted|)]
  {}

  /** The name met in a round. */
  function NameAt(r: Ring, start: nat, t: nat): string
    requires start < |r.sorted|
  {
    Lookup(r.table, r.sorted[After(r, start, t).idx])
  }

  ghost predicate Along(r: Ring, start: nat, owners: seq<string>) {
    && start < |r.sorted| == |owners|
    && forall t: nat {:trigger NameAt(r, start, t)} :: t < |owners| ==> owners[t] == NameAt(r, start, t)
  }

  /** The first turn of the loop meets the owners along the walk. */
  lemma AlongWalk(r: Ring, h: int)
    requires Ascending(r.sorted) && r.sorted != []
    ensures Along(r, Start(r.sorted, h), WalkOwners(r, h))
  {
    var start, owners := Start(r.sorted, h), WalkOwners(r, h);
    RotationIsWalk(r.sorted, h);
    forall t: nat | t < |owners| ensures owners[t] == NameAt(r, start, t) {
      RotateAt(r.sorted, start, t);
      PlaceAfter(r, start, t);
    }
  }

  function Members(s: seq<string>): set<string> {
    set x | x in s
  }

  ghost predicate Gathered(nodes: map<string, Status>, owners: seq<string>, met: set<string>, result: seq<string>) {
    met == Members(owners) && result == Filter(Up(nodes), FirstSeen(owners))
  }

  lemma Gather(nodes: map<string, Status>, past: seq<string>, node: string, all: seq<string>,
               met: set<string>, result: seq<string>)
    requires Gathered(nodes, past, met, result) && all == past + [node]
    ensures Gathered(nodes, all, met + {node}, Meet(nodes, node, met, result))
  {
    SeenSnoc(past, node);
    SeenMembers(past);
    FilterSnoc(Up(nodes), FirstSeen(past), node);
  }

  lemma GatherRound(r: Ring, l: Loop, past: seq<string>, all: seq<string>)
    requires l.idx < |r.sorted| && Gathered(r.nodes, past, l.met, l.result)
    requires all == past + [Lookup(r.table, r.sorted[l.idx])]
    ensures var next := Round(r, l); Gathered(r.nodes, all, next.met, next.result)
  {
    Gather(r.nodes, past, Lookup(r.table, r.sorted[l.idx]), all, l.met, l.result);
  }

  lemma OneMore(r: Ring, start: nat, owners: seq<string>, t: nat, l: Loop)
    requires Along(r, start, owners) && t < |owners| && l == After(r, start, t)
    ensures l.idx < |r.sorted| && owners[..t + 1] == owners[..t] + [Lookup(r.table, r.sorted[l.idx])]
  {
    assert owners[t] == NameAt(r, start, t);
  }

  lemma {:induction false} RoundsGather(r: Ring, start: nat, owners: seq<string>, t: nat, past: seq<string>, l: Loop)
    requires Along(r, start, owners) && t <= |owners| && past == owners[..t] && l == After(r, start, t)
    ensures Gathered(r.nodes, past, l.met, l.result)
    decreases t
  {
    if t == 0 {
      NothingGathered(r.nodes);
    } else {
      var before, less := After(r, start, t - 1), owners[..t - 1];
      RoundsGather(r, start, owners, t - 1, less, before);
      OneMore(r, start, owners, t - 1, before);
      GatherRound(r, before, less, past);
    }
  }

  lemma NothingGathered(nodes: map<string, Status>)
    ensures Gathered(nodes, [], {}, [])
  {}

  /** Whichever way the loop stops, it has the replicas. */
  lemma StopsWithReplicas(r: Ring, h: int, t: nat, wanted: nat, l: Loop)
    requires Ascending(r.sorted) && r.sorted != [] && t <= |r.sorted| && l == After(r, Start(r.sorted, h), t)
    requires Stops(r, wanted, l) && |l.result| <= wanted && |l.met| <= |r.nodes|
    ensures l.result == Replicas(r, h, wanted)
  {
    var owners := WalkOwners(r, h);
    AlongWalk(r, h);
    var past, rest := owners[..t], owners[t..];
    RoundsGather(r, Start(r.sorted, h), owners, t, past, l);
    GatheredIsFirst(r.nodes, past, rest, owners, l.met, l.result, wanted);
  }

  lemma GatheredIsFirst(nodes: map<string, Status>, past: seq<string>, rest: seq<string>, all: seq<string>,
                        met: set<string>, result: seq<string>, wanted: nat)
    requires Gathered(nodes, past, met, result) && all == past + rest
    requires |met| <= |nodes| && |result| <= wanted && (|result| == wanted || |met| == |nodes|)
    ensures result == Take(wanted, Filter(Up(nodes), Take(|nodes|, FirstSeen(all))))
  {
    SeenMembers(past);
    UniqueSize(FirstSeen(past), met);
    SeenPrefix(past, rest);
    TakeFirst(Up(nodes), FirstSeen(past), FirstSeen(all), |nodes|, wanted);
  }

  lemma TakeFirst(f: string -> bool, names: seq<string>, all: seq<string>, n: nat, wanted: nat)
    requires names <= all && |names| <= n && |Filter(f, names)| <= wanted
    requires |Filter(f, names)| == wanted || |names| == n
    ensures Filter(f, names) == Take(wanted, Filter(f, Take(n, all)))
  {
    var first := Take(n, all);
    assert first == names + first[|names|..];
    FilterConcat(f, names, first[|names|..]);
    if |names| == n { assert first == names; }
  }
}
