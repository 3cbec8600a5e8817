/** The persistent log with compaction, against the whole log that was ever appended. */
module LogStorage {
  import opened Wrappers
  import opened Seqs
  import opened RaftTypes

  datatype Stored = Stored(entries: seq<Entry>, lastIndex: int, compactTo: int)

  function Within(first: int, last: int): Entry -> bool {
    (e: Entry) => first <= e.index <= last
  }

  function Below(index: int): Entry -> bool {
    (e: Entry) => e.index < index
  }

  function Above(index: int): Entry -> bool {
    (e: Entry) => e.index > index
  }

  function Append(s: Stored, more: seq<Entry>): Stored {
    s.(entries := s.entries + more, lastIndex := if more == [] then s.lastIndex else more[|more| - 1].index)
  }

  function Fetch(s: Stored, first: int, last: int): Option<seq<Entry>> {
    if first < s.compactTo then None else Some(Filter(Within(first, last), s.entries))
  }

  /** Cuts the log; the answer is whether the cut is allowed. */
  function Truncate(s: Stored, index: int): (Stored, bool) {
    if index <= s.compactTo then (s, false) else
    var kept := Filter(Below(index), s.entries);
    (s.(entries := kept, lastIndex := if kept == [] then s.compactTo else kept[|kept| - 1].index), true)
  }

  function Compacted(s: Stored, upTo: int): Stored {
    if upTo <= s.compactTo then s else s.(entries := Filter(Above(upTo), s.entries), compactTo := upTo)
  }

  const RETENTION := 100

  /** The compactor never goes into the last hundred entries. */
  function CompactorCompact(s: Stored, upTo: int): Stored {
    var capped := if upTo > s.lastIndex - RETENTION then s.lastIndex - RETENTION else upTo;
    if capped <= 0 then s else Compacted(s, capped)
  }

  // ----- the ideal log -----

  /** What is stored is the ideal log from the compaction point on. */
  ghost predicate Represents(s: Stored, log: seq<Entry>) {
    0 <= s.compactTo <= s.lastIndex == |log| && Indexed(log) && s.entries == log[s.compactTo..]
  }

  /** The entries of the ideal log with indices first to last. */
  function Slice(log: seq<Entry>, first: int, last: int): seq<Entry> {
    var low, high := if first <= 1 then 0 else first - 1, if last > |log| then |log| else last;
    if low <= high then log[low..high] else []
  }

  ghost predicate Follows(more: seq<Entry>, last: int) {
    forall i :: 0 <= i < |more| ==> more[i].index == last + 1 + i
  }

  lemma AppendRepresents(s: Stored, log: seq<Entry>, more: seq<Entry>)
    requires Represents(s, log) && Follows(more, s.lastIndex)
    ensures Represents(Append(s, more), log + more)
  {
    assert (log + more)[s.compactTo..] == log[s.compactTo..] + more;
  }

  /** Filtering a run of consecutive indices by bounds cuts a slice out of it. */
  lemma {:induction false} FilterRun(f: Entry -> bool, run: seq<Entry>, base: int, low: nat, high: nat)
    requires low <= high <= |run| && (forall i :: 0 <= i < |run| ==> run[i].index == base + i)
    requires forall i :: 0 <= i < |run| ==> (f(run[i]) <==> low <= i < high)
    ensures Filter(f, run) == run[low..high]
  {
    assert run == run[..low] + (run[low..high] + run[high..]);
    FilterConcat(f, run[..low], run[low..high] + run[high..]);
    FilterConcat(f, run[low..high], run[high..]);
    FilterNone(f, run[..low]);
    FilterAll(f, run[low..high]);
    FilterNone(f, run[high..]);
  }

  function Clamp(x: int, n: nat): nat {
    if x < 0 then 0 else if x > n then n else x
  }

  lemma RunIndices(s: Stored, log: seq<Entry>)
    requires Represents(s, log)
    ensures |s.entries| == |log| - s.compactTo
    ensures forall i :: 0 <= i < |s.entries| ==>
            s.entries[i].index == s.compactTo + 1 + i && s.entries[i] == log[s.compactTo + i]
  {}

  lemma TruncateRepresents(s: Stored, log: seq<Entry>, index: int)
    requires Represents(s, log) && index > s.compactTo
    ensures Represents(Truncate(s, index).0, log[..Clamp(index - 1, |log|)])
  {
    RunIndices(s, log);
    var n := Clamp(index - 1, |log|);
    FilterRun(Below(index), s.entries, s.compactTo + 1, 0, n - s.compactTo);
    assert log[..n][s.compactTo..] == s.entries[..n - s.compactTo];
  }

  /** Compacting keeps the ideal log if and only if it does not go past the last entry. */
  lemma CompactRepresents(s: Stored, log: seq<Entry>, upTo: int)
    requires Represents(s, log)
    ensures (exists l :: Represents(Compacted(s, upTo), l)) <==> upTo <= s.lastIndex
    ensures upTo <= s.lastIndex ==> Represents(Compacted(s, upTo), log)
  {
    RunIndices(s, log);
    if s.compactTo < upTo <= s.lastIndex {
      FilterRun(Above(upTo), s.entries, s.compactTo + 1, upTo - s.compactTo, |s.entries|);
      assert log[upTo..] == s.entries[upTo - s.compactTo..];
    }
    if upTo <= s.lastIndex {
      assert Represents(Compacted(s, upTo), log);
    }
  }

  /** A compactor step keeps the ideal log. It moves the compaction point to where it is asked to, but not back and not
      into the last hundred entries. */
  lemma CompactorRepresents(s: Stored, log: seq<Entry>, upTo: int)
    requires Represents(s, log)
    ensures Represents(CompactorCompact(s, upTo), log)
    ensures var most := if upTo < |log| - 100 then upTo else |log| - 100;
            CompactorCompact(s, upTo).compactTo == if most > s.compactTo then most else s.compactTo
  {
    var capped := if upTo > s.lastIndex - RETENTION then s.lastIndex - RETENTION else upTo;
    CompactRepresents(s, log, capped);
  }

  /** The stretch of a run of consecutive indices, beginning with base, that lies between two indices. */
  function Between(run: seq<Entry>, base: int, first: int, last: int): seq<Entry> {
    var low, high := Clamp(first - base, |run|), Clamp(last - base + 1, |run|);
    if low <= high then run[low..high] else []
  }

  lemma RunWithin(run: seq<Entry>, base: int, first: int, last: int)
    requires forall i :: 0 <= i < |run| ==> run[i].index == base + i
    ensures Filter(Within(first, last), run) == Between(run, base, first, last)
  {
    var low, high := Clamp(first - base, |run|), Clamp(last - base + 1, |run|);
    if low <= high {
      FilterRun(Within(first, last), run, base, low, high);
    } else {
      FilterNone(Within(first, last), run);
    }
  }

  lemma BetweenIsSlice(log: seq<Entry>, c: nat, first: int, last: int)
    requires c <= |log| && c < first
    ensures Between(log[c..], c + 1, first, last) == Slice(log, first, last)
  {
    var n := |log| - c;
    var low, high := Clamp(first - c - 1, n), Clamp(last - c, n);
    if low <= high { assert log[c..][low..high] == log[c + low..c + high]; }
  }

  /** What a fetch gives: the asked-for part of what is stored. */
  lemma FetchStored(s: Stored, log: seq<Entry>, first: int, last: int)
    requires Represents(s, log) && s.compactTo <= first
    ensures Fetch(s, first, last) == Some(Slice(log, if first == s.compactTo then first + 1 else first, last))
  {
    RunIndices(s, log);
    RunWithin(s.entries, s.compactTo + 1, first, last);
    var from := if first == s.compactTo then first + 1 else first;
    assert Between(s.entries, s.compactTo + 1, first, last) == Between(s.entries, s.compactTo + 1, from, last);
    BetweenIsSlice(log, s.compactTo, from, last);
  }

  /** Starting one later gives another slice, unless there is nothing at the start or nothing is asked for. */
  lemma SlicesDiffer(log: seq<Entry>, first: int, last: int)
    requires 0 <= first <= |log|
    ensures Slice(log, first + 1, last) == Slice(log, first, last) <==> first == 0 || last < first
  {
    if 0 < first <= last {
      assert |Slice(log, first, last)| == |Slice(log, first + 1, last)| + 1;
    }
  }

  /** A fetch is refused below the compaction point; it gives the slice of the ideal log if and only if it starts after
      that point, or what it would miss there was not asked for. */
  lemma FetchExact(s: Stored, log: seq<Entry>, first: int, last: int)
    requires Represents(s, log)
    ensures Fetch(s, first, last).None? <==> first < s.compactTo
    ensures first >= s.compactTo ==>
              (Fetch(s, first, last) == Some(Slice(log, first, last)) <==>
                  first > s.compactTo || first == 0 || last < first)
  {
    if first >= s.compactTo {
      FetchStored(s, log, first, last);
      if first == s.compactTo { SlicesDiffer(log, first, last); }
    }
  }

  // ----- whole runs -----

  datatype Step = AppendStep(more: seq<Entry>) | TruncateStep(index: int) | CompactStep(upTo: int)

  function Do(s: Stored, step: Step): Stored {
    match step
    case AppendStep(more) => Append(s, more)
    case TruncateStep(index) => Truncate(s, index).0
    case CompactStep(upTo) => CompactorCompact(s, upTo)
  }

  /** The same step on the log that is never compacted; a refused cut does nothing. */
  function Ideally(s: Stored, log: seq<Entry>, step: Step): seq<Entry> {
    match step
    case AppendStep(more) => log + more
    case TruncateStep(index) => if index <= s.compactTo then log else log[..Clamp(index - 1, |log|)]
    case CompactStep(upTo) => log
  }

  function Run(steps: seq<Step>): (Stored, seq<Entry>) {
    if steps == [] then (Stored([], 0, 0), []) else
    var (s, log) := Run(steps[..|steps| - 1]);
    (Do(s, steps[|steps| - 1]), Ideally(s, log, steps[|steps| - 1]))
  }

  /** Every append goes on where the log ends. */
  ghost predicate Contiguous(steps: seq<Step>) {
    forall i :: 0 <= i < |steps| && steps[i].AppendStep? ==> Follows(steps[i].more, Run(steps[..i]).0.lastIndex)
  }

  /** After any run of contiguous appends, cuts and compactor steps the stored log is the end of the ideal one. */
  lemma {:induction false} RunRepresents(steps: seq<Step>)
    requires Contiguous(steps)
    ensures Represents(Run(steps).0, Run(steps).1)
    decreases |steps|
  {
    if steps != [] {
      var past, last := steps[..|steps| - 1], steps[|steps| - 1];
      assert Contiguous(past) by {
        forall i | 0 <= i < |past| && past[i].AppendStep? ensures Follows(past[i].more, Run(past[..i]).0.lastIndex) {
          assert past[..i] == steps[..i] && past[i] == steps[i];
        }
      }
      RunRepresents(past);
      var (s, log) := Run(past);
      match last
      case AppendStep(more) => AppendRepresents(s, log, more);
      case TruncateStep(index) => if index > s.compactTo { TruncateRepresents(s, log, index); }
      case CompactStep(upTo) => CompactorRepresents(s, log, upTo);
    }
  }

  // ----- inputs that show the limits -----

  /** A log longer than what is retained, appended and compacted to k, loses just its first k entries. */
  lemma CompactedRun(log: seq<Entry>, k: nat)
    requires Indexed(log) && 0 < k <= |log| - RETENTION
    ensures var steps := [AppendStep(log), CompactStep(k)];
            Contiguous(steps) && Run(steps).0.compactTo == k && Run(steps).1 == log
  {
    var steps := [AppendStep(log), CompactStep(k)];
    assert steps[..0] == [] && steps[..1] == [AppendStep(log)] && [AppendStep(log)][..0] == [];
    assert [] + log == log;
    assert Run([AppendStep(log)]) == (Stored(log, |log|, 0), log);
  }

  /** A fetch of the entry at the compaction point is not refused and comes back without it. */
  lemma FetchMissesEntry(log: seq<Entry>, k: nat)
    requires Indexed(log) && 0 < k <= |log| - RETENTION
    ensures var s := Run([AppendStep(log), CompactStep(k)]).0; Fetch(s, k, k) == Some([]) != Some(Slice(log, k, k))
  {
    CompactedRun(log, k);
    var steps := [AppendStep(log), CompactStep(k)];
    RunRepresents(steps);
    FetchStored(Run(steps).0, log, k, k);
  }

  /** An empty store compacted past its end takes the next entry, but can no longer cut it off. */
  lemma CompactedPastEnd(e: Entry)
    requires e.index == 1
    ensures var s := Append(Compacted(Run([]).0, 1), [e]);
            Fetch(s, 1, 1) == Some([e]) && Truncate(s, 1) == (s, false) && Truncate(Append(Run([]).0, [e]), 1).1
  {
    assert Compacted(Run([]).0, 1) == Stored([], 0, 1);
    assert [] + [e] == [e];
    FilterAll(Within(1, 1), [e]);
  }

  // ----- the storage object -----

  class Storage {
    var entries: seq<Entry>
    var lastIndex: int
    var compactTo: int

    ghost function Model(): Stored
      reads this
    {
      Stored(entries, lastIndex, compactTo)
    }

    constructor ()
      ensures Model() == Run([]).0
    {
      entries, lastIndex, compactTo := [], 0, 0;
    }

    method AppendEntries(more: seq<Entry>)
      modifies this
      ensures Model() == Append(old(Model()), more)
    {
      entries := entries + more;
      if |more| > 0 {
        lastIndex := more[|more| - 1].index;
      }
    }

    method GetEntries(first: int, last: int) returns (found: Option<seq<Entry>>)
      ensures found == Fetch(Model(), first, last)
    {
      if first < compactTo {
        return None;
      }
      var result: seq<Entry> := [];
      for i := 0 to |entries|
        invariant result == Filter(Within(first, last), entries[..i])
      {
        FilterNext(Within(first, last), entries, i);
        if entries[i].index >= first && entries[i].index <= last {
          result := result + [entries[i]];
        }
      }
      assert entries[..|entries|] == entries;
      return Some(result);
    }

    method TruncateFrom(index: int) returns (allowed: bool)
      modifies this
      ensures (Model(), allowed) == Truncate(old(Model()), index)
    {
      if index <= compactTo {
        return false;
      }
      var kept: seq<Entry> := [];
      for i := 0 to |entries|
        invariant unchanged(this) && kept == Filter(Below(index), entries[..i])
      {
        FilterNext(Below(index), entries, i);
        if entries[i].index < index {
          kept := kept + [entries[i]];
        }
      }
      assert entries[..|entries|] == entries;
      entries := kept;
      if |entries| > 0 {
        lastIndex := entries[|entries| - 1].index;
      } else {
        lastIndex := compactTo;
      }
      allowed := true;
    }

    method Compact(upTo: int)
      modifies this
      ensures Model() == Compacted(old(Model()), upTo)
    {
      if upTo <= compactTo {
        return;
      }
      var kept: seq<Entry> := [];
      for i := 0 to |entries|
        invariant unchanged(this) && kept == Filter(Above(upTo), entries[..i])
      {
        FilterNext(Above(upTo), entries, i);
        if entries[i].index > upTo {
          kept := kept + [entries[i]];
        }
      }
      assert entries[..|entries|] == entries;
      entries := kept;
      compactTo := upTo;
    }

    /** The compactor's step on this storage. */
    method CompactRetaining(upTo: int)
      modifies this
      ensures Model() == CompactorCompact(old(Model()), upTo)
    {
      var most := lastIndex - RETENTION;
      var target := upTo;
      if target > most {
        target := most;
      }
      if target <= 0 {
        return;
      }
      Compact(target);
    }
  }

  lemma FilterNext(f: Entry -> bool, s: seq<Entry>, i: nat)
    requires i < |s|
    ensures Filter(f, s[..i + 1]) == Filter(f, s[..i]) + (if f(s[i]) then [s[i]] else [])
  {
    assert s[..i + 1] == s[..i] + [s[i]];
    FilterSnoc(f, s[..i], s[i]);
  }
}
