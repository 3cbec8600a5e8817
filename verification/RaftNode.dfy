/** A Raft server as the object its handlers update, each handler proved against its step function. */
module RaftNode {
  import opened Wrappers
  import opened RaftTypes
  import opened RaftSteps
  import KvStore

  /** The term and vote that survive a restart. */
  class PersistentState {
    var currentTerm: nat
    var votedFor: Option<nat>

    constructor ()
      ensures currentTerm == 0 && votedFor == None
    {
      currentTerm, votedFor := 0, None;
    }

    method Save(term: nat, vote: Option<nat>)
      modifies this
      ensures currentTerm == term && votedFor == vote
    {
      currentTerm, votedFor := term, vote;
    }

    /** Raises the term, forgetting the vote of the old one; never lowers it. */
    method UpdateTerm(term: nat)
      modifies this
      ensures currentTerm >= old(currentTerm) && currentTerm >= term
      ensures if term > old(currentTerm) then currentTerm == term && votedFor == None
              else currentTerm == old(currentTerm) && votedFor == old(votedFor)
    {
      if term > currentTerm {
        currentTerm, votedFor := term, None;
      }
    }

    method UpdateVote(term: nat, candidate: nat) returns (ok: bool)
      modifies this
      ensures ok <==> term == old(currentTerm)
      ensures currentTerm == old(currentTerm) && votedFor == if ok then Some(candidate) else old(votedFor)
    {
      ok := term == currentTerm;
      if ok { votedFor := Some(candidate); }
    }
  }

  /** Applies every committed entry that is still to be applied. */
  function ApplyPending(x: Node): Node
    decreases x.commit - x.applied
  {
    if x.applied >= x.commit then x else ApplyPending(ApplyNext(x))
  }

  /** Whatever the order of steps, the data ends as the replay of the committed log. */
  lemma {:induction false} ApplyPendingReplays(x: Node)
    requires x.applied <= x.commit <= |x.log| && x.store == ExecuteAll(x.log[..x.applied])
    ensures ApplyPending(x) == x.(applied := x.commit, store := ExecuteAll(x.log[..x.commit]))
    decreases x.commit - x.applied
  {
    if x.applied < x.commit {
      assert x.log[..x.applied + 1][..x.applied] == x.log[..x.applied];
      ApplyPendingReplays(ApplyNext(x));
    }
  }

  class Server {
    const id: nat
    const peers: set<nat>
    const persistence: PersistentState
    const machine: KvStore.StateMachine
    var role: Role
    var currentTerm: nat
    var votedFor: Option<nat>
    var log: Log
    var commitIndex: nat
    var lastApplied: nat
    var nextIndex: map<nat, nat>
    var matchIndex: map<nat, nat>
    var tally: set<nat>

    ghost predicate Valid()
      reads this, persistence
    {
      && id < Size() && peers == Peers(Size(), id)
      && persistence.currentTerm == currentTerm && persistence.votedFor == votedFor
    }

    /** The size of the cluster. */
    function Size(): nat {
      |peers| + 1
    }

    ghost function Record(): Node
      reads this, machine
    {
      Node(id, role, currentTerm, votedFor, log, commitIndex, lastApplied, nextIndex, matchIndex, tally,
          machine.Contents())
    }

    /** Starting on the saved state of an earlier server object is exactly a restart of that server. */
    constructor (n: nat, id: nat, saved: PersistentState)
      requires id < n
      ensures Valid() && Size() == n && this.id == id && persistence == saved && fresh(machine)
      ensures Record() == Fresh(id, saved.currentTerm, saved.votedFor)
    {
      this.id, this.peers, this.persistence := id, Peers(n, id), saved;
      machine := new KvStore.StateMachine();
      role := Follower;
      currentTerm, votedFor := saved.currentTerm, saved.votedFor;
      log, commitIndex, lastApplied := [], 0, 0;
      nextIndex, matchIndex, tally := map[], map[], {};
      new;
      PeerCount(n, id);
    }

    method SavePersistentState()
      modifies persistence
      ensures persistence.currentTerm == currentTerm && persistence.votedFor == votedFor
    {
      persistence.Save(currentTerm, votedFor);
    }

    method HandleElectionTimeout()
      requires Valid()
      modifies this, persistence
      ensures Valid() && Record() == ElectionTimeout(old(Record()))
    {
      if role == Leader { return; }
      currentTerm := currentTerm + 1;
      role := Candidate;
      votedFor := Some(id);
      tally := {};
      SavePersistentState();
    }

    method IsLogUpToDate(lastIndex: nat, lastTerm: nat) returns (ok: bool)
      ensures ok == UpToDate(log, lastIndex, lastTerm)
    {
      var ourTerm, ourIndex := LastTerm(log), LastIndex(log);
      if lastTerm != ourTerm { return lastTerm >= ourTerm; }
      return lastIndex >= ourIndex;
    }

    method HandleVoteRequest(req: VoteRequest) returns (resp: VoteResponse)
      requires Valid()
      modifies this, persistence
      ensures Valid() && (Record(), resp) == RaftSteps.HandleVoteRequest(old(Record()), req)
    {
      resp := VoteResponse(currentTerm, false);
      if req.term < currentTerm { return; }
      if req.term > currentTerm {
        currentTerm := req.term;
        role := Follower;
        votedFor := None;
        SavePersistentState();
      }
      var upToDate := IsLogUpToDate(req.lastIndex, req.lastTerm);
      if (votedFor == None || votedFor == Some(req.candidate)) && upToDate {
        votedFor := Some(req.candidate);
        SavePersistentState();
        resp := VoteResponse(currentTerm, true);
      }
    }

    /** One turn of the loop that collects the answers to the vote requests of term `asked`. */
    method CountVote(asked: nat, voter: nat, resp: VoteResponse)
      requires Valid()
      modifies this, persistence
      ensures Valid() && Record() == RaftSteps.CountVote(Size(), old(Record()), asked, voter, resp)
    {
      if role != Candidate || currentTerm != asked { return; }
      if resp.term > currentTerm {
        currentTerm := resp.term;
        role := Follower;
        votedFor := None;
        SavePersistentState();
        return;
      }
      if resp.granted { tally := tally + {voter}; }
      if 1 + |tally| >= GetMajority() {
        BecomeLeader();
      }
    }

    function GetMajority(): (m: nat)
      ensures m == Majority(Size())
    {
      (|peers| + 2) / 2
    }

    method BecomeLeader()
      requires Valid()
      modifies this
      ensures Valid() && Record() == RaftSteps.BecomeLeader(Size(), old(Record()))
    {
      role := Leader;
      nextIndex, matchIndex := LeaderIndices(nextIndex, matchIndex, peers, LastIndex(log));
    }

    /** When the log storage fails, the entry stays in the log although the caller gets an error. */
    method AppendEntry(kind: string, data: Payload, now: int, persisted: bool) returns (index: Option<nat>)
      requires Valid()
      modifies this
      ensures Valid() && Record() == RaftSteps.AppendEntry(old(Record()), kind, data, now)
      ensures old(role) != Leader ==> log == old(log)
      ensures old(role) == Leader ==> log == old(log) + [Entry(LastIndex(old(log)) + 1, currentTerm, kind, data, now)]
      ensures index == if old(role) == Leader && persisted then Some(LastIndex(log)) else None
    {
      if role != Leader { return None; }
      var entry := Entry(LastIndex(log) + 1, currentTerm, kind, data, now);
      log := log + [entry];
      if !persisted { return None; }
      return Some(entry.index);
    }

    /** The request replicateToFollower sends. */
    method ReplicationRequest(peer: nat) returns (req: Option<AppendRequest>)
      ensures req == if role == Leader then Some(ReplicateRequest(Record(), peer)) else None
    {
      if role != Leader { return None; }
      ghost var x := Record();
      assert x.nextIndex == nextIndex && x.log == log;
      var next := Lookup(nextIndex, peer);
      if next == 0 { next := 1; }
      var prev, prevTerm := next - 1, 0;
      if prev > 0 && prev <= |log| { prevTerm := log[prev - 1].term; }
      assert prevTerm == TermAt(x.log, prev);
      var entries := [];
      if next <= |log| { entries := log[next - 1..]; }
      assert ReplicateRequest(x, peer).entries == entries;
      req := Some(AppendRequest(currentTerm, id, prev, prevTerm, entries, commitIndex));
    }

    /** The handler as written: it forgets the vote even when the term does not rise, and caps the
        commit index by the end of the log. */
    method HandleAppendEntries(req: AppendRequest) returns (resp: AppendResponse)
      requires Valid()
      modifies this, persistence
      ensures Valid() && (Record(), resp) == HandleAppend(AS_WRITTEN, old(Record()), req)
    {
      ghost var x := Record();
      resp := AppendResponse(currentTerm, false, LastIndex(log));
      if req.term < currentTerm { return; }
      currentTerm := req.term;
      role := Follower;
      votedFor := None;
      SavePersistentState();
      ghost var y := Record();
      assert y == x.(term := req.term, role := Follower, votedFor := None);
      resp := resp.(term := currentTerm);
      if req.prevIndex > 0 {
        if req.prevIndex > LastIndex(log) { return; }
        if req.prevIndex <= |log| && log[req.prevIndex - 1].term != req.prevTerm { return; }
      }
      assert HoldsPrevious(x.log, req);
      log := Merged(log, req.prevIndex, req.entries);
      if req.leaderCommit > commitIndex {
        commitIndex := if req.leaderCommit > LastIndex(log) then LastIndex(log) else req.leaderCommit;
      }
      assert commitIndex == FollowerCommit(AS_WRITTEN, x.commit, log, req);
      assert Record() == y.(log := log, commit := commitIndex);
      resp := AppendResponse(currentTerm, true, LastIndex(log));
    }

    /** Counts the servers that hold the log up to index k, this one included. */
    method CountReplicas(k: nat) returns (count: nat)
      ensures count == 1 + |Acknowledged(Record(), k)|
    {
      count := 1;
      var rest := matchIndex.Keys;
      ghost var seen: set<nat> := {};
      while rest != {}
        invariant rest <= matchIndex.Keys
        invariant seen == set p | p in matchIndex.Keys - rest && matchIndex[p] >= k
        invariant count == 1 + |seen|
        decreases rest
      {
        var p :| p in rest;
        if matchIndex[p] >= k {
          count := count + 1;
          seen := seen + {p};
        }
        rest := rest - {p};
      }
      assert seen == Acknowledged(Record(), k);
    }

    method UpdateCommitIndex()
      requires Valid()
      modifies this
      ensures Valid() && Record() == UpdateCommit(Size(), old(Record()))
    {
      if role != Leader { return; }
      var k: nat := LastIndex(log);
      ghost var before := Record();
      while k > commitIndex
        invariant Record() == before
        invariant CommitPoint(Size(), before, LastIndex(log)) == CommitPoint(Size(), before, k)
        decreases k
      {
        if k <= |log| && log[k - 1].term == currentTerm {
          var count := CountReplicas(k);
          if count >= GetMajority() {
            commitIndex := k;
            return;
          }
        }
        k := k - 1;
      }
    }

    method HandleAppendEntriesResponse(peer: nat, req: AppendRequest, resp: AppendResponse)
      requires Valid()
      modifies this
      ensures Valid() && Record() == HandleAppendResponse(Size(), old(Record()), peer, req, resp)
    {
      if role != Leader || resp.term != currentTerm { return; }
      if resp.success {
        if |req.entries| > 0 {
          matchIndex := matchIndex[peer := req.prevIndex + |req.entries|];
          nextIndex := nextIndex[peer := matchIndex[peer] + 1];
          UpdateCommitIndex();
        }
      } else if Lookup(nextIndex, peer) > 1 {
        nextIndex := nextIndex[peer := nextIndex[peer] - 1];
      }
    }

    method ApplyEntries()
      requires Valid()
      modifies this, machine
      ensures Valid() && Record() == ApplyPending(old(Record()))
    {
      ghost var before := Record();
      while lastApplied < commitIndex
        invariant Valid() && ApplyPending(Record()) == ApplyPending(before)
        invariant id == before.id
        decreases commitIndex - lastApplied
      {
        lastApplied := lastApplied + 1;
        if lastApplied <= |log| {
          var _ := machine.Apply(log[lastApplied - 1]);
        }
      }
    }
  }

  /** The two loops of the follower: cut at the first conflict, then append what is new. */
  method Merged(before: Log, prev: nat, entries: Log) returns (log: Log)
    ensures log == Merge(before, prev, entries)
  {
    log := before;
    var i := 0;
    while i < |entries|
      invariant i <= |entries| && log == before
      invariant CutAtConflict(before, prev, entries, 0) == CutAtConflict(before, prev, entries, i)
    {
      if prev + i + 1 <= |log| && log[prev + i].term != entries[i].term {
        log := log[..prev + i];
        break;
      }
      i := i + 1;
    }
    assert log == CutAtConflict(before, prev, entries, 0);
    ghost var cut := log;
    var j := 0;
    while j < |entries|
      invariant j <= |entries| && AppendNew(log, prev, entries, j) == AppendNew(cut, prev, entries, 0)
    {
      if prev + j + 1 > |log| { log := log + [entries[j]]; }
      j := j + 1;
    }
  }

  /** The loop that starts every peer just past the leader's log, with nothing known to match. */
  method LeaderIndices(next0: map<nat, nat>, match0: map<nat, nat>, peers: set<nat>, last: nat)
    returns (next: map<nat, nat>, matching: map<nat, nat>)
    ensures next == SetAll(next0, peers, last + 1)
    ensures matching == SetAll(match0, peers, 0)
  {
    next, matching := next0, match0;
    var rest := peers;
    ghost var done: set<nat> := {};
    while rest != {}
      invariant done + rest == peers
      invariant next == SetAll(next0, done, last + 1)
      invariant matching == SetAll(match0, done, 0)
      decreases rest
    {
      var p :| p in rest;
      SetOneMore(next0, done, p, last + 1);
      SetOneMore(match0, done, p, 0);
      next := next[p := last + 1];
      matching := matching[p := 0];
      done, rest := done + {p}, rest - {p};
    }
    assert done == peers;
  }

  lemma SetOneMore(m: map<nat, nat>, keys: set<nat>, k: nat, value: nat)
    ensures SetAll(m, keys + {k}, value) == SetAll(m, keys, value)[k := value]
  {}

  lemma PeerCount(n: nat, id: nat)
    requires id < n
    ensures |Peers(n, id)| + 1 == n
  {
    assert Ids(n) == Peers(n, id) + {id};
  }
}
