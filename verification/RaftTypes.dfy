/** Values shared by the Raft model: log entries, messages, the node record, and majorities. */
module RaftTypes {
  import opened Wrappers
  import opened Sets

  datatype Role = Follower | Candidate | Leader

  /** The decoded body of a log entry; `Garbled` stands for bytes that are not a valid operation. */
  datatype Payload = Garbled | Operation(kind: string, key: string, value: string)

  datatype Entry = Entry(index: nat, term: nat, kind: string, data: Payload, timestamp: int)

  type Log = seq<Entry>

  datatype VoteRequest = VoteRequest(term: nat, candidate: nat, lastIndex: nat, lastTerm: nat)

  datatype VoteResponse = VoteResponse(term: nat, granted: bool)

  datatype AppendRequest = AppendRequest(
    term: nat, leader: nat, prevIndex: nat, prevTerm: nat, entries: Log, leaderCommit: nat)

  datatype AppendResponse = AppendResponse(term: nat, success: bool, lastIndex: nat)

  /** The replicated key-value data; `version` is the per-key counter kept in the entry metadata. */
  datatype Store = Store(data: map<string, string>, version: map<string, nat>)

  const EMPTY_STORE := Store(map[], map[])

  /** One Raft server. `tally` holds the peers whose granted votes the current candidacy has counted. */
  datatype Node = Node(
    id: nat, role: Role, term: nat, votedFor: Option<nat>, log: Log, commit: nat, applied: nat,
    nextIndex: map<nat, nat>, matchIndex: map<nat, nat>, tally: set<nat>, store: Store)

  function LastIndex(log: Log): nat {
    if log == [] then 0 else log[|log| - 1].index
  }

  function LastTerm(log: Log): nat {
    if log == [] then 0 else log[|log| - 1].term
  }

  /** The entry at place k has index k + 1. */
  ghost predicate Indexed(log: Log) {
    forall k :: 0 <= k < |log| ==> log[k].index == k + 1
  }

  /** The server identifiers 0 .. n-1. */
  function Ids(n: nat): (ids: set<nat>)
    ensures forall i: nat :: i in ids <==> i < n
    ensures |ids| == n
  {
    if n == 0 then {} else Ids(n - 1) + {n - 1}
  }

  function Peers(n: nat, id: nat): set<nat> {
    Ids(n) - {id}
  }

  /** The vote and replication threshold, for a cluster in which each of n servers has n - 1 peers. */
  function Majority(n: nat): nat
    requires n > 0
  {
    ((n - 1) + 2) / 2
  }

  /** Two groups that reach the threshold always share a server exactly when the cluster size is odd. */
  lemma QuorumsIntersectIffOdd(n: nat)
    requires n > 0
    ensures n % 2 == 1 <==>
            forall p: set<nat>, q: set<nat> ::
              p <= Ids(n) && q <= Ids(n) && |p| >= Majority(n) && |q| >= Majority(n) ==> p * q != {}
  {
    if n % 2 == 1 {
      forall p: set<nat>, q: set<nat> | p <= Ids(n) && q <= Ids(n) && |p| >= Majority(n) && |q| >= Majority(n)
        ensures p * q != {}
      {
        SharedMember(n, p, q);
      }
    } else {
      var p, q := Ids(n / 2), Ids(n) - Ids(n / 2);
      assert p * q == {} && p <= Ids(n) && |q| == n - n / 2;
    }
  }

  lemma SharedMember(n: nat, p: set<nat>, q: set<nat>)
    requires n % 2 == 1
    requires p <= Ids(n) && q <= Ids(n) && |p| >= Majority(n) && |q| >= Majority(n)
    ensures p * q != {}
  {
    assert 2 * Majority(n) == n + 1;
    SubsetSize(p + q, Ids(n));
    assert |p + q| + |p * q| == |p| + |q|;
  }
}
