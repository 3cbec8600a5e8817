/** The follower's truncate and append loops, against the leader's log the request was cut from. */
module RaftMerge {
  import opened RaftTypes
  import opened RaftSteps
  import opened Numbers

  /** Logs agree up to any position at which their terms agree. */
  ghost predicate Agree(x: Log, y: Log) {
    forall k :: 0 <= k < |x| && k < |y| && x[k].term == y[k].term ==> x[..k + 1] == y[..k + 1]
  }

  /** The request carries a stretch of the log and names the entry before it. */
  ghost predicate CutFrom(req: AppendRequest, log: Log) {
    && req.prevIndex + |req.entries| <= |log|
    && req.entries == log[req.prevIndex..req.prevIndex + |req.entries|]
    && req.prevTerm == TermAt(log, req.prevIndex)
  }

  /** The log a follower must end with: its own if it already holds all that was vouched for. */
  function Adopt(x: Log, vouched: Log): Log {
    if vouched <= x then x else vouched
  }

  lemma {:induction false} AppendKeeps(y: Log, prev: nat, entries: Log, i: nat)
    requires i <= |entries| && |y| >= prev + |entries|
    ensures AppendNew(y, prev, entries, i) == y
    decreases |entries| - i
  {
    if i < |entries| {
      AppendKeeps(y, prev, entries, i + 1);
    }
  }

  lemma {:induction false} AppendFills(y: Log, leader: Log, prev: nat, entries: Log, i: nat)
    requires i <= |entries| && prev + |entries| <= |leader| && entries == leader[prev..prev + |entries|]
    requires prev + i <= |y| <= prev + |entries| && y == leader[..|y|]
    ensures AppendNew(y, prev, entries, i) == leader[..prev + |entries|]
    decreases |entries| - i
  {
    if i < |entries| {
      if prev + i + 1 > |y| {
        assert y + [entries[i]] == leader[..|y| + 1];
        AppendFills(y + [entries[i]], leader, prev, entries, i + 1);
      } else {
        AppendFills(y, leader, prev, entries, i + 1);
      }
    }
  }

  /** The scan stops at the first position where the follower's log leaves the leader's. */
  lemma {:induction false} CutStops(x: Log, leader: Log, prev: nat, entries: Log, i: nat)
    requires i <= |entries| && prev + |entries| <= |leader| && entries == leader[prev..prev + |entries|]
    requires Agree(x, leader) && prev <= |x|
    requires x[..Min(prev + i, |x|)] == leader[..Min(prev + i, |x|)]
    ensures var cut := CutAtConflict(x, prev, entries, i);
            || (cut == x && x[..Min(prev + |entries|, |x|)] == leader[..Min(prev + |entries|, |x|)])
            || (!(leader[..prev + |entries|] <= x) && prev <= |cut| <= prev + |entries| && cut == leader[..|cut|])
    decreases |entries| - i
  {
    if i < |entries| {
      if prev + i < |x| {
        assert leader[..prev + |entries|][prev + i] == entries[i];
        if x[prev + i].term == entries[i].term {
          CutStops(x, leader, prev, entries, i + 1);
        } else {
          assert x[..prev + i] == leader[..prev + i];
        }
      } else {
        CutStops(x, leader, prev, entries, i + 1);
      }
    }
  }

  lemma PreviousShared(x: Log, leader: Log, req: AppendRequest)
    requires Indexed(x) && Agree(x, leader) && CutFrom(req, leader) && HoldsPrevious(x, req)
    ensures req.prevIndex <= |x| && x[..req.prevIndex] == leader[..req.prevIndex]
  {
    if req.prevIndex > 0 { assert x[req.prevIndex - 1].term == leader[req.prevIndex - 1].term; }
  }

  /** Appending to the cut log gives what must be adopted. */
  lemma CutThenAppend(x: Log, leader: Log, prev: nat, entries: Log, cut: Log)
    requires prev + |entries| <= |leader| && entries == leader[prev..prev + |entries|] && prev <= |x|
    requires var m := prev + |entries|;
             || (cut == x && x[..Min(m, |x|)] == leader[..Min(m, |x|)])
             || (!(leader[..m] <= x) && prev <= |cut| <= m && cut == leader[..|cut|])
    ensures AppendNew(cut, prev, entries, 0) == Adopt(x, leader[..prev + |entries|])
  {
    if |cut| >= prev + |entries| {
      AppendKeeps(cut, prev, entries, 0);
    } else {
      AppendFills(cut, leader, prev, entries, 0);
    }
  }

  /** An accepted request leaves the log as it was when it already holds everything up to the last
      entry sent, and otherwise makes it exactly the leader's log up to that entry. */
  lemma MergeAdopts(x: Log, leader: Log, req: AppendRequest)
    requires Indexed(x) && Agree(x, leader) && CutFrom(req, leader) && HoldsPrevious(x, req)
    ensures Merge(x, req.prevIndex, req.entries) == Adopt(x, leader[..req.prevIndex + |req.entries|])
  {
    PreviousShared(x, leader, req);
    CutStops(x, leader, req.prevIndex, req.entries, 0);
    CutThenAppend(x, leader, req.prevIndex, req.entries, CutAtConflict(x, req.prevIndex, req.entries, 0));
  }

  /** A log that begins with all of a request is left as it is by the request. */
  lemma AlreadyHeld(y: Log, leader: Log, req: AppendRequest)
    requires Indexed(leader) && CutFrom(req, leader) && leader[..req.prevIndex + |req.entries|] <= y
    requires Indexed(y) && Agree(y, leader)
    ensures HoldsPrevious(y, req) && Merge(y, req.prevIndex, req.entries) == y
  {
    assert req.prevIndex > 0 ==> y[req.prevIndex - 1] == leader[..req.prevIndex + |req.entries|][req.prevIndex - 1];
    MergeAdopts(y, leader, req);
  }

  lemma AdoptedAgrees(x: Log, leader: Log, m: nat)
    requires Indexed(x) && Indexed(leader) && Agree(x, leader) && m <= |leader|
    ensures var y := Adopt(x, leader[..m]); Indexed(y) && Agree(y, leader) && leader[..m] <= y
  {}

  /** What an accepted request leaves begins with all of it. */
  lemma MergedHolds(x: Log, leader: Log, req: AppendRequest) returns (y: Log)
    requires Indexed(x) && Indexed(leader) && Agree(x, leader) && CutFrom(req, leader) && HoldsPrevious(x, req)
    ensures y == Merge(x, req.prevIndex, req.entries) && Indexed(y) && Agree(y, leader)
    ensures leader[..req.prevIndex + |req.entries|] <= y
  {
    var m := req.prevIndex + |req.entries|;
    MergeAdopts(x, leader, req);
    AdoptedAgrees(x, leader, m);
    y := Adopt(x, leader[..m]);
  }

  lemma ShorterStart(y: Log, leader: Log, k: nat, m: nat)
    requires k <= m <= |leader| && leader[..m] <= y
    ensures leader[..k] <= y
  {
    assert leader[..k] == leader[..m][..k];
  }

  /** Replaying or reordering one leader's requests never loses an entry that an accepted one brought. */
  lemma ReplayIsHarmless(x: Log, leader: Log, newer: AppendRequest, older: AppendRequest)
    requires Indexed(x) && Agree(x, leader) && CutFrom(newer, leader) && CutFrom(older, leader) && Indexed(leader)
    requires HoldsPrevious(x, newer) && older.prevIndex + |older.entries| <= newer.prevIndex + |newer.entries|
    ensures var y := Merge(x, newer.prevIndex, newer.entries);
            HoldsPrevious(y, older) && Merge(y, older.prevIndex, older.entries) == y
  {
    var y := MergedHolds(x, leader, newer);
    ShorterStart(y, leader, older.prevIndex + |older.entries|, newer.prevIndex + |newer.entries|);
    AlreadyHeld(y, leader, older);
  }
}
