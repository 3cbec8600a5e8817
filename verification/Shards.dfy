/** Shard key ranges under splitting and merging. */
module Shards {
  import opened Wrappers
  import opened RingModel
  import opened RingRouting

  /** The number of shard IDs. */
  const IDS: int := 0x1_0000_0000

  datatype Shard = Shard(start: int, end: int, active: bool, replicas: seq<string>)

  type Table = map<nat, Shard>

  predicate Contains(s: Shard, h: int) {
    s.start <= h <= s.end
  }

  function Largest(ids: set<nat>): nat {
    if m :| m in ids && (forall k :: k in ids ==> k <= m) then m else 0
  }

  /** One more than the largest ID, in 32 bits. */
  function NextId(t: Table): nat {
    (Largest(t.Keys) + 1) % IDS
  }

  predicate CanSplit(t: Table, id: nat, at: int) {
    id in t && t[id].active && t[id].start < at < t[id].end
  }

  /** Splits an active shard at a hash strictly inside its range; the upper part gets the next ID. */
  function SplitInto(t: Table, id: nat, at: int, next: nat): Table
    requires CanSplit(t, id, at)
  {
    t[id := t[id].(end := at)][next := Shard((at + 1) % SPACE, t[id].end, false, t[id].replicas)]
  }

  function Split(t: Table, id: nat, at: int): (Table, Option<nat>) {
    if CanSplit(t, id, at) then (SplitInto(t, id, at, NextId(t)), Some(NextId(t))) else (t, None)
  }

  /** Merges the second shard into the first if its range begins where the first one's ends. */
  function Merge(t: Table, first: nat, second: nat): (Table, bool) {
    if first !in t || second !in t || !t[first].active || !t[second].active
       || (t[first].end + 1) % SPACE != t[second].start
    then (t, false)
    else (t[first := t[first].(end := t[second].end)] - {second}, true)
  }

  // ----- partitions -----

  ghost predicate Sane(t: Table) {
    forall id :: id in t ==> id < IDS && 0 <= t[id].start <= t[id].end < SPACE
  }

  ghost predicate Disjoint(t: Table) {
    forall a, b, h :: a in t && b in t && a != b && Contains(t[a], h) ==> !Contains(t[b], h)
  }

  ghost predicate Covered(t: Table, h: int) {
    exists id :: id in t && Contains(t[id], h)
  }

  /** Non-empty disjoint ranges that together hold the same hashes as before. */
  ghost predicate Repartitions(before: Table, after: Table) {
    Sane(after) && Disjoint(after) && forall h :: Covered(before, h) <==> Covered(after, h)
  }

  /** A part of the result lies in the shard it comes from. */
  lemma SplitOrigin(t: Table, id: nat, at: int, next: nat, k: nat, h: int)
    requires Sane(t) && CanSplit(t, id, at) && k in SplitInto(t, id, at, next)
    requires Contains(SplitInto(t, id, at, next)[k], h)
    ensures var from := if k == next then id else k; from in t && Contains(t[from], h)
    ensures (k == next ==> at < h) && (k == id != next ==> h <= at)
  {}

  lemma SplitDisjoint(t: Table, id: nat, at: int, next: nat)
    requires Sane(t) && Disjoint(t) && CanSplit(t, id, at)
    ensures Disjoint(SplitInto(t, id, at, next))
  {
    var after := SplitInto(t, id, at, next);
    forall a, b, h | a in after && b in after && a != b && Contains(after[a], h) ensures !Contains(after[b], h) {
      SplitOrigin(t, id, at, next, a, h);
      if Contains(after[b], h) { SplitOrigin(t, id, at, next, b, h); }
    }
  }

  lemma SplitCovers(t: Table, id: nat, at: int, next: nat, h: int)
    requires Sane(t) && CanSplit(t, id, at) && next !in t
    ensures Covered(t, h) <==> Covered(SplitInto(t, id, at, next), h)
  {
    var after := SplitInto(t, id, at, next);
    if Covered(t, h) {
      var k :| k in t && Contains(t[k], h);
      assert if k == id then Contains(after[id], h) || Contains(after[next], h) else Contains(after[k], h);
    }
    if Covered(after, h) {
      var k :| k in after && Contains(after[k], h);
      SplitOrigin(t, id, at, next, k, h);
    }
  }

  lemma SplitKeeps(t: Table, id: nat, at: int, next: nat)
    requires Sane(t) && Disjoint(t) && CanSplit(t, id, at) && next !in t && next < IDS
    ensures Repartitions(t, SplitInto(t, id, at, next))
  {
    SplitDisjoint(t, id, at, next);
    forall h ensures Covered(t, h) <==> Covered(SplitInto(t, id, at, next), h) {
      SplitCovers(t, id, at, next, h);
    }
  }

  lemma SplitLoses(t: Table, id: nat, at: int, next: nat)
    requires Sane(t) && Disjoint(t) && CanSplit(t, id, at) && next in t
    ensures !Repartitions(t, SplitInto(t, id, at, next))
  {
    var lost, after := t[next].start, SplitInto(t, id, at, next);
    assert Contains(t[next], lost) && Covered(t, lost);
    forall k | k in after ensures !Contains(after[k], lost) {
      if Contains(after[k], lost) { SplitOrigin(t, id, at, next, k, lost); }
    }
    assert !Covered(after, lost);
  }

  /** A split keeps the partition if and only if the new ID is free. */
  lemma SplitRepartitions(t: Table, id: nat, at: int)
    requires Sane(t) && Disjoint(t) && CanSplit(t, id, at)
    ensures Repartitions(t, Split(t, id, at).0) <==> NextId(t) !in t
  {
    if NextId(t) !in t {
      SplitKeeps(t, id, at, NextId(t));
    } else {
      SplitLoses(t, id, at, NextId(t));
    }
  }

  /** A merge keeps the partition if and only if the first range does not end at the end of the hash space, where the
      increment that tests adjacency wraps. */
  lemma MergeRepartitions(t: Table, first: nat, second: nat)
    requires Sane(t) && Disjoint(t) && Merge(t, first, second).1
    ensures Repartitions(t, Merge(t, first, second).0) <==> t[first].end < SPACE - 1
  {
    var a, b, after := t[first], t[second], Merge(t, first, second).0;
    if a.end < SPACE - 1 {
      MergeKeeps(t, first, second);
    } else if first == second {
      assert Contains(a, 0) && Covered(t, 0);
      assert forall k :: k in after ==> !Contains(t[k], 0);
      assert !Covered(after, 0);
    } else {
      assert Contains(a, a.end) && Contains(b, 0);
      assert b.end < a.start by {
        if a.start <= b.end { assert Contains(a, if b.end <= a.end then b.end else a.end) && Contains(b, b.end); }
      }
      assert after[first].end < after[first].start;
      assert first in after;
    }
  }

  lemma MergeKeeps(t: Table, first: nat, second: nat)
    requires Sane(t) && Disjoint(t) && Merge(t, first, second).1 && t[first].end < SPACE - 1
    ensures Repartitions(t, Merge(t, first, second).0)
  {
    var a, b, after := t[first], t[second], Merge(t, first, second).0;
    assert a.end + 1 == b.start && first != second;
    assert forall h :: Contains(after[first], h) <==> Contains(a, h) || Contains(b, h);
    forall h ensures Covered(t, h) <==> Covered(after, h) {
      if Covered(t, h) {
        var k :| k in t && Contains(t[k], h);
        assert if k == second then Contains(after[first], h) else Contains(after[k], h);
      }
      if Covered(after, h) {
        var k :| k in after && Contains(after[k], h);
        assert if k == first then Contains(t[first], h) || Contains(t[second], h) else Contains(t[k], h);
      }
    }
  }

  /** Two shards that hold the whole hash space, merged from the upper one on, hold nothing. */
  lemma MergeAcrossEnd(at: int, h: int)
    requires 0 < at < SPACE && 0 <= h < SPACE
    ensures var t: Table := map[0 := Shard(at, SPACE - 1, true, []), 1 := Shard(0, at - 1, true, [])];
            Covered(t, h) && Merge(t, 0, 1).1 && !Covered(Merge(t, 0, 1).0, h)
  {
    var t: Table := map[0 := Shard(at, SPACE - 1, true, []), 1 := Shard(0, at - 1, true, [])];
    assert Contains(t[if at <= h then 0 else 1], h);
    assert (t[0].end + 1) % SPACE == 0;
    assert Merge(t, 0, 1).0 == map[0 := Shard(at, at - 1, true, [])];
  }

  // ----- where a hash is held -----

  predicate Serves(s: Shard, node: string, h: int) {
    node in s.replicas && Contains(s, h)
  }

  /** Some shard holds the hash and is replicated at the node. */
  ghost predicate Held(t: Table, owner: Option<string>, h: int) {
    owner.Some? && exists id :: id in t && Serves(t[id], owner.value, h)
  }

  /** Every hash is held at the same nodes. */
  ghost predicate SameHolders(before: Table, after: Table) {
    forall node, h :: Held(before, Some(node), h) <==> Held(after, Some(node), h)
  }

  /** A split with a free ID changes for no node whether it holds a hash. The lower part stays active and the upper part
      is not yet. */
  lemma SplitKeepsHolders(t: Table, id: nat, at: int)
    requires Sane(t) && CanSplit(t, id, at) && NextId(t) !in t
    ensures var (after, made) := Split(t, id, at);
            && SameHolders(t, after) && made.Some? && after.Keys == t.Keys + {made.value} && made.value !in t
            && after[id].active && !after[made.value].active && after[id].end == at
  {
    var after, next := SplitInto(t, id, at, NextId(t)), NextId(t);
    forall node, h ensures Held(t, Some(node), h) <==> Held(after, Some(node), h) {
      SplitKeepsHeld(t, id, at, next, node, h);
    }
  }

  lemma SplitKeepsHeld(t: Table, id: nat, at: int, next: nat, node: string, h: int)
    requires Sane(t) && CanSplit(t, id, at) && next !in t
    ensures Held(t, Some(node), h) <==> Held(SplitInto(t, id, at, next), Some(node), h)
  {
    var after := SplitInto(t, id, at, next);
    if Held(t, Some(node), h) {
      var k :| k in t && Serves(t[k], node, h);
      assert if k == id then Serves(after[id], node, h) || Serves(after[next], node, h) else Serves(after[k], node, h);
    }
    if Held(after, Some(node), h) {
      var k :| k in after && Serves(after[k], node, h);
      assert if k == next then Serves(t[id], node, h) else Serves(t[k], node, h);
    }
  }

  /** Among disjoint ranges the one that holds the hash decides. */
  lemma HeldAt(t: Table, id: nat, node: string, h: int)
    requires Disjoint(t) && id in t && Contains(t[id], h)
    ensures Held(t, Some(node), h) <==> node in t[id].replicas
  {
    if node in t[id].replicas { assert Serves(t[id], node, h); }
  }

  /** A merge that does not run into the end of the hash space holds every hash at the same nodes if and only if the two
      shards are replicated at the same nodes; one that does, if and only if they are replicated nowhere. */
  lemma MergeKeepsHolders(t: Table, first: nat, second: nat)
    requires Sane(t) && Disjoint(t) && Merge(t, first, second).1
    ensures SameHolders(t, Merge(t, first, second).0) <==>
            if t[first].end < SPACE - 1 then forall node :: node in t[first].replicas <==> node in t[second].replicas
            else t[first].replicas == t[second].replicas == []
  {
    if t[first].end < SPACE - 1 {
      MergedHolders(t, first, second);
    } else {
      LostHolders(t, first, second);
    }
  }

  lemma MergedHolders(t: Table, first: nat, second: nat)
    requires Sane(t) && Disjoint(t) && Merge(t, first, second).1 && t[first].end < SPACE - 1
    ensures SameHolders(t, Merge(t, first, second).0) <==>
            forall node :: node in t[first].replicas <==> node in t[second].replicas
  {
    var a, b, after := t[first], t[second], Merge(t, first, second).0;
    MergeKeeps(t, first, second);
    assert a.end + 1 == b.start && first != second;
    if SameHolders(t, after) {
      forall node ensures node in a.replicas <==> node in b.replicas {
        HeldAt(t, second, node, b.start);
        HeldAt(after, first, node, b.start);
        assert Held(t, Some(node), b.start) <==> Held(after, Some(node), b.start);
      }
    }
    if forall node :: node in a.replicas <==> node in b.replicas {
      forall node, h ensures Held(t, Some(node), h) <==> Held(after, Some(node), h) {
        MergedHeld(t, first, second, node, h);
      }
    }
  }

  lemma MergedHeld(t: Table, first: nat, second: nat, node: string, h: int)
    requires Sane(t) && Merge(t, first, second).1 && t[first].end < SPACE - 1
    requires node in t[first].replicas <==> node in t[second].replicas
    ensures Held(t, Some(node), h) <==> Held(Merge(t, first, second).0, Some(node), h)
  {
    var after := Merge(t, first, second).0;
    assert t[first].end + 1 == t[second].start && first != second;
    if Held(t, Some(node), h) {
      var k :| k in t && Serves(t[k], node, h);
      assert if k == second then Serves(after[first], node, h) else Serves(after[k], node, h);
    }
    if Held(after, Some(node), h) {
      var k :| k in after && Serves(after[k], node, h);
      assert if k == first then Serves(t[first], node, h) || Serves(t[second], node, h) else Serves(t[k], node, h);
    }
  }

  lemma LostHolders(t: Table, first: nat, second: nat)
    requires Sane(t) && Disjoint(t) && Merge(t, first, second).1 && t[first].end == SPACE - 1
    ensures SameHolders(t, Merge(t, first, second).0) <==> t[first].replicas == t[second].replicas == []
  {
    var a, b, after := t[first], t[second], Merge(t, first, second).0;
    assert b.start == 0;
    assert first != second ==> b.end < a.start by {
      if first != second && a.start <= b.end { assert Contains(a, b.end) && Contains(b, b.end); }
    }
    assert forall k, h :: k in after && Contains(after[k], h) ==> k != first && k in t && after[k] == t[k];
    if a.replicas != [] || b.replicas != [] {
      var id := if a.replicas != [] then first else second;
      var node, h := t[id].replicas[0], t[id].start;
      HeldAt(t, id, node, h);
      assert Held(t, Some(node), h) && !Held(after, Some(node), h);
    } else {
      forall node, h ensures Held(t, Some(node), h) <==> Held(after, Some(node), h) {
        if Held(t, Some(node), h) {
          var k :| k in t && Serves(t[k], node, h);
          assert Serves(after[k], node, h);
        }
        if Held(after, Some(node), h) {
          var k :| k in after && Serves(after[k], node, h);
          assert Serves(t[k], node, h);
        }
      }
    }
  }

  // ----- new IDs -----

  lemma LargestIs(ids: set<nat>, m: nat)
    requires (forall k :: k in ids ==> k <= m) && (m in ids || m == 0)
    ensures Largest(ids) == m
  {
    assert m in ids || forall k :: k in ids ==> k <= 0;
  }

  lemma {:induction false} LargestBounds(ids: set<nat>)
    ensures (forall k :: k in ids ==> k <= Largest(ids)) && (Largest(ids) in ids || (Largest(ids) == 0 && ids == {}))
  {
    if k :| k in ids {
      LargestBounds(ids - {k});
      var m := Largest(ids - {k});
      assert forall j :: j in ids ==> j == k || j in ids - {k};
      LargestIs(ids, if k > m then k else m);
    }
  }

  /** The new ID is taken exactly when both the first and the last ID are; before the last ID is in use it is above all
      others. */
  lemma NextIdFree(t: Table)
    requires Sane(t)
    ensures NextId(t) in t <==> 0 in t && IDS - 1 in t
    ensures IDS - 1 !in t ==> forall k :: k in t ==> k < NextId(t)
    ensures NextId(t) < IDS && (NextId(t) > 1 ==> NextId(t) - 1 in t)
  {
    LargestBounds(t.Keys);
  }

  // ----- runs -----

  datatype Step = SplitStep(id: nat, at: int) | MergeStep(first: nat, second: nat) | SetActive(id: nat, active: bool)

  function Do(t: Table, step: Step): Table {
    match step
    case SplitStep(id, at) => Split(t, id, at).0
    case MergeStep(first, second) => Merge(t, first, second).0
    case SetActive(id, active) => if id in t then t[id := t[id].(active := active)] else t
  }

  /** The step does not run into the end of the ID space or of the hash space. */
  predicate InBounds(t: Table, step: Step) {
    match step
    case SplitStep(id, at) => NextId(t) !in t
    case MergeStep(first, second) => first in t ==> t[first].end < SPACE - 1
    case SetActive(id, active) => true
  }

  function Run(t: Table, steps: seq<Step>): Table {
    if steps == [] then t else Do(Run(t, steps[..|steps| - 1]), steps[|steps| - 1])
  }

  lemma {:induction false} RunRepartitions(t: Table, steps: seq<Step>)
    requires Sane(t) && Disjoint(t)
    requires forall i :: 0 <= i < |steps| ==> InBounds(Run(t, steps[..i]), steps[i])
    ensures Repartitions(t, Run(t, steps))
    decreases |steps|
  {
    if steps != [] {
      var past, last := steps[..|steps| - 1], steps[|steps| - 1];
      forall i | 0 <= i < |past| ensures InBounds(Run(t, past[..i]), past[i]) {
        assert past[..i] == steps[..i] && past[i] == steps[i];
      }
      RunRepartitions(t, past);
      StepRepartitions(Run(t, past), last);
    }
  }

  lemma StepRepartitions(t: Table, step: Step)
    requires Sane(t) && Disjoint(t) && InBounds(t, step)
    ensures Repartitions(t, Do(t, step))
  {
    match step
    case SplitStep(id, at) => if CanSplit(t, id, at) { SplitKeeps(t, id, at, NextId(t)); }
    case MergeStep(first, second) => if Merge(t, first, second).1 { MergeKeeps(t, first, second); }
    case SetActive(id, active) =>
      if id in t {
        var after := Do(t, step);
        assert forall k, h :: k in t ==> (Contains(after[k], h) <==> Contains(t[k], h));
        forall h ensures Covered(t, h) <==> Covered(after, h) {}
      }
  }

  // ----- the shard manager -----

  class ShardManager {
    var shards: Table

    constructor ()
      ensures shards == map[]
    {
      shards := map[];
    }

    method GenerateShardId() returns (id: nat)
      requires Sane(shards)
      ensures id == NextId(shards)
    {
      var most: nat := 0;
      var rest: set<nat> := shards.Keys;
      while rest != {}
        invariant rest <= shards.Keys && (most == 0 || most in shards)
        invariant forall k :: k in shards && k !in rest ==> k <= most
      {
        var k :| k in rest;
        if k > most {
          most := k;
        }
        rest := rest - {k};
      }
      LargestIs(shards.Keys, most);
      id := (most + 1) % IDS;
    }

    method SplitShard(id: nat, at: int) returns (made: Option<nat>)
      requires Sane(shards)
      modifies this
      ensures (shards, made) == Split(old(shards), id, at)
      ensures made.Some? <==>
                id in old(shards) && old(shards)[id].active && old(shards)[id].start < at < old(shards)[id].end
    {
      if id !in shards {
        return None;
      }
      if !shards[id].active {
        return None;
      }
      if at <= shards[id].start || at >= shards[id].end {
        return None;
      }
      var next := GenerateShardId();
      ghost var after := SplitInto(shards, id, at, next);
      assert Split(shards, id, at) == (after, Some(next));
      var original := shards[id];
      shards := shards[id := original.(end := at)];
      shards := shards[next := Shard((at + 1) % SPACE, original.end, false, original.replicas)];
      assert shards == after;
      return Some(next);
    }

    method MergeShards(first: nat, second: nat) returns (merged: bool)
      modifies this
      ensures (shards, merged) == Merge(old(shards), first, second)
      ensures merged <==>
                && first in old(shards) && second in old(shards)
                && old(shards)[first].active && old(shards)[second].active
                && (old(shards)[first].end + 1) % SPACE == old(shards)[second].start
    {
      if first !in shards || second !in shards {
        return false;
      }
      if !shards[first].active || !shards[second].active {
        return false;
      }
      if (shards[first].end + 1) % SPACE != shards[second].start {
        return false;
      }
      shards := shards[first := shards[first].(end := shards[second].end)];
      shards := shards - {second};
      merged := true;
    }

    /** The ring gives the node, or there is none. The shards are looked at in no particular order; the answer is the
        same in every order if ranges are disjoint. */
    method GetShardForKey(ring: Ring, h: int) returns (found: Option<Shard>)
      ensures found.Some? <==> Held(shards, GetNode(ring, h), h)
      ensures found.Some? ==> GetNode(ring, h).Some? && Serves(found.value, GetNode(ring, h).value, h)
      ensures Disjoint(shards) && GetNode(ring, h).Some? ==>
                forall id :: id in shards && Serves(shards[id], GetNode(ring, h).value, h) ==> found == Some(shards[id])
    {
      var owner := GetNode(ring, h);
      if owner.None? {
        return None;
      }
      var node, rest: set<nat> := owner.value, shards.Keys;
      while rest != {}
        invariant rest <= shards.Keys
        invariant forall id :: id in shards && id !in rest ==> !Serves(shards[id], node, h)
      {
        var id :| id in rest;
        var shard := shards[id];
        if node in shard.replicas {
          if h >= shard.start && h <= shard.end {
            assert Serves(shards[id], node, h);
            return Some(shard);
          }
        }
        rest := rest - {id};
      }
      return None;
    }
  }
}
