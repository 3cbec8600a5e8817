/** What each handler of a Raft server does to the server's record, as functions on values. */
module RaftSteps {
  import opened Wrappers
  import opened RaftTypes
  import opened Numbers

  /** The two places where the handlers and the protocol they cite part ways.
      `keepVote`: an AppendEntries request of the current term leaves the vote of that term alone.
      `capCommit`: a follower's commit index is capped by the last entry the request vouches for. */
  datatype Rules = Rules(keepVote: bool, capCommit: bool)

  const AS_WRITTEN := Rules(false, false)
  const INTENDED := Rules(true, true)

  // ----- elections -----

  function StartElection(x: Node): Node {
    x.(term := x.term + 1, role := Candidate, votedFor := Some(x.id), tally := {})
  }

  function ElectionTimeout(x: Node): Node {
    if x.role == Leader then x else StartElection(x)
  }

  predicate UpToDate(log: Log, lastIndex: nat, lastTerm: nat) {
    if lastTerm != LastTerm(log) then lastTerm >= LastTerm(log) else lastIndex >= LastIndex(log)
  }

  function StepDown(x: Node, term: nat): Node {
    x.(term := term, role := Follower, votedFor := None)
  }

  function HandleVoteRequest(x: Node, req: VoteRequest): (Node, VoteResponse) {
    if req.term < x.term then (x, VoteResponse(x.term, false)) else
    var y := if req.term > x.term then StepDown(x, req.term) else x;
    if (y.votedFor == None || y.votedFor == Some(req.candidate)) && UpToDate(y.log, req.lastIndex, req.lastTerm)
    then (y.(votedFor := Some(req.candidate)), VoteResponse(y.term, true))
    else (y, VoteResponse(x.term, false))
  }

  /** The map with one value for all these keys. */
  function SetAll(m: map<nat, nat>, keys: set<nat>, value: nat): map<nat, nat> {
    m + map k | k in keys :: value
  }

  function BecomeLeader(n: nat, x: Node): Node {
    x.(role := Leader,
       nextIndex := SetAll(x.nextIndex, Peers(n, x.id), LastIndex(x.log) + 1),
       matchIndex := SetAll(x.matchIndex, Peers(n, x.id), 0))
  }

  /** A candidate takes in one answer to the vote requests it sent for term `asked`. */
  function CountVote(n: nat, x: Node, asked: nat, voter: nat, resp: VoteResponse): Node
    requires n > 0
  {
    if x.role != Candidate || x.term != asked then x
    else if resp.term > x.term then StepDown(x, resp.term)
    else
      var y := if resp.granted then x.(tally := x.tally + {voter}) else x;
      if 1 + |y.tally| >= Majority(n) then BecomeLeader(n, y) else y
  }

  // ----- log replication -----

  function AppendEntry(x: Node, kind: string, data: Payload, now: int): Node {
    if x.role != Leader then x
    else x.(log := x.log + [Entry(LastIndex(x.log) + 1, x.term, kind, data, now)])
  }

  function Lookup(m: map<nat, nat>, k: nat): nat {
    if k in m then m[k] else 0
  }

  function TermAt(log: Log, index: nat): nat {
    if 0 < index <= |log| then log[index - 1].term else 0
  }

  /** The request that replicates everything from the peer's next index to the end of the log. */
  function ReplicateRequest(x: Node, peer: nat): AppendRequest {
    var next := if Lookup(x.nextIndex, peer) == 0 then 1 else Lookup(x.nextIndex, peer);
    var entries := if next <= |x.log| then x.log[next - 1..] else [];
    AppendRequest(x.term, x.id, next - 1, TermAt(x.log, next - 1), entries, x.commit)
  }

  /** The entry-less request of the heartbeat timer. */
  function HeartbeatRequest(x: Node, peer: nat): AppendRequest {
    var prev := if Lookup(x.nextIndex, peer) == 0 then 0 else Lookup(x.nextIndex, peer) - 1;
    AppendRequest(x.term, x.id, prev, TermAt(x.log, prev), [], x.commit)
  }

  predicate HoldsPrevious(log: Log, req: AppendRequest) {
    req.prevIndex > 0 ==>
      && req.prevIndex <= LastIndex(log)
      && (req.prevIndex <= |log| ==> log[req.prevIndex - 1].term == req.prevTerm)
  }

  /** The log after the scan for the first conflicting entry, starting at position i of the request. */
  function CutAtConflict(log: Log, prev: nat, entries: Log, i: nat): Log
    requires i <= |entries|
    decreases |entries| - i
  {
    if i == |entries| then log
    else if prev + i + 1 <= |log| && log[prev + i].term != entries[i].term then log[..prev + i]
    else CutAtConflict(log, prev, entries, i + 1)
  }

  /** The log after appending the request's entries that lie beyond its end, from position i on. */
  function AppendNew(log: Log, prev: nat, entries: Log, i: nat): Log
    requires i <= |entries|
    decreases |entries| - i
  {
    if i == |entries| then log
    else if prev + i + 1 > |log| then AppendNew(log + [entries[i]], prev, entries, i + 1)
    else AppendNew(log, prev, entries, i + 1)
  }

  function Merge(log: Log, prev: nat, entries: Log): Log {
    AppendNew(CutAtConflict(log, prev, entries, 0), prev, entries, 0)
  }

  function FollowerCommit(rules: Rules, commit: nat, log: Log, req: AppendRequest): nat {
    if req.leaderCommit <= commit then commit
    else if rules.capCommit then Max(commit, Min(req.leaderCommit, req.prevIndex + |req.entries|))
    else Min(req.leaderCommit, LastIndex(log))
  }

  function HandleAppend(rules: Rules, x: Node, req: AppendRequest): (Node, AppendResponse) {
    if req.term < x.term then (x, AppendResponse(x.term, false, LastIndex(x.log))) else
    var vote := if rules.keepVote && req.term == x.term then x.votedFor else None;
    var y := x.(term := req.term, role := Follower, votedFor := vote);
    if !HoldsPrevious(x.log, req) then (y, AppendResponse(req.term, false, LastIndex(x.log))) else
    var log := Merge(x.log, req.prevIndex, req.entries);
    (y.(log := log, commit := FollowerCommit(rules, x.commit, log, req)),
     AppendResponse(req.term, true, LastIndex(log)))
  }

  /** The peers known to hold the leader's log up to index k. */
  function Acknowledged(x: Node, k: nat): set<nat> {
    set p | p in x.matchIndex && x.matchIndex[p] >= k
  }

  predicate CanCommit(n: nat, x: Node, k: nat)
    requires n > 0
  {
    0 < k <= |x.log| && x.log[k - 1].term == x.term && 1 + |Acknowledged(x, k)| >= Majority(n)
  }

  /** Scans down from index k for the highest index the leader may commit. */
  function CommitPoint(n: nat, x: Node, k: nat): nat
    requires n > 0
  {
    if k <= x.commit then x.commit else if CanCommit(n, x, k) then k else CommitPoint(n, x, k - 1)
  }

  function UpdateCommit(n: nat, x: Node): Node
    requires n > 0
  {
    if x.role != Leader then x else x.(commit := CommitPoint(n, x, LastIndex(x.log)))
  }

  function HandleAppendResponse(n: nat, x: Node, peer: nat, req: AppendRequest, resp: AppendResponse): Node
    requires n > 0
  {
    if x.role != Leader || resp.term != x.term then x
    else if resp.success then
      if req.entries == [] then x else
      var reached := req.prevIndex + |req.entries|;
      UpdateCommit(n, x.(matchIndex := x.matchIndex[peer := reached], nextIndex := x.nextIndex[peer := reached + 1]))
    else if Lookup(x.nextIndex, peer) > 1 then
      x.(nextIndex := x.nextIndex[peer := x.nextIndex[peer] - 1])
    else x
  }

  // ----- applying entries -----

  function Execute(s: Store, e: Entry): Store {
    match e.data
    case Garbled => s
    case Operation(kind, key, value) =>
      if kind == "PUT" then
        Store(s.data[key := value], s.version[key := if key in s.version then s.version[key] + 1 else 1])
      else if kind == "DELETE" && key in s.data then Store(s.data - {key}, s.version - {key})
      else s
  }

  function ExecuteAll(log: Log): Store {
    if log == [] then EMPTY_STORE else Execute(ExecuteAll(log[..|log| - 1]), log[|log| - 1])
  }

  function ApplyNext(x: Node): Node {
    if x.applied >= x.commit then x
    else if x.applied + 1 <= |x.log| then
      x.(applied := x.applied + 1, store := Execute(x.store, x.log[x.applied]))
    else x.(applied := x.applied + 1)
  }

  // ----- start and restart -----

  function Fresh(id: nat, term: nat, vote: Option<nat>): Node {
    Node(id, Follower, term, vote, [], 0, 0, map[], map[], {}, EMPTY_STORE)
  }

  /** A restart reloads the saved term and vote and nothing else. */
  function Restart(x: Node): Node {
    Fresh(x.id, x.term, x.votedFor)
  }
}
