/** Replication converges: rounds of a leader's request, the peer's answer and the count of the answer. */
module RaftCatchUp {
  import opened Wrappers
  import opened RaftTypes
  import opened RaftSteps
  import opened RaftMerge
  import opened RaftCluster
  import opened RaftElection
  import opened RaftLogs
  import opened RaftCommit
  import opened RaftSafety
  import opened RaftRuns
  import opened RaftElectability
  import opened Numbers

  /** Where the leader's next request to the peer starts. */
  function NextFor(x: Node, p: nat): nat {
    if Lookup(x.nextIndex, p) == 0 then 1 else Lookup(x.nextIndex, p)
  }

  /** Leader x sends, peer y answers, and x takes in the answer. */
  function Round(rules: Rules, n: nat, x: Node, y: Node, p: nat): (Node, Node)
    requires n > 0
  {
    var req := ReplicateRequest(x, p);
    var (z, resp) := HandleAppend(rules, y, req);
    (HandleAppendResponse(n, x, p, req, resp), z)
  }

  /** The two logs have entries of the same term at index i, or i is zero. */
  predicate Meet(x: Log, y: Log, i: nat) {
    i > 0 ==> i <= |x| && i <= |y| && x[i - 1].term == y[i - 1].term
  }

  /** A leader and a peer that is not in a later term, with logs that agree where their terms do. */
  ghost predicate Paired(x: Node, y: Node, p: nat) {
    && x.role == Leader && y.term <= x.term && NextFor(x, p) <= |x.log| + 1
    && Indexed(x.log) && Indexed(y.log) && Agree(y.log, x.log)
  }

  lemma RequestCut(x: Node, p: nat)
    requires NextFor(x, p) <= |x.log| + 1
    ensures var req := ReplicateRequest(x, p);
            && CutFrom(req, x.log) && req.prevIndex == NextFor(x, p) - 1 && req.prevIndex + |req.entries| == |x.log|
            && req.term == x.term && req.leaderCommit == x.commit && (req.entries == [] <==> NextFor(x, p) > |x.log|)
  {}

  lemma MeetIsHeld(x: Node, y: Log, p: nat)
    requires NextFor(x, p) <= |x.log| + 1 && Indexed(y)
    ensures HoldsPrevious(y, ReplicateRequest(x, p)) <==> Meet(x.log, y, NextFor(x, p) - 1)
  {}

  /** A heartbeat is the replication request without its entries, so it is accepted exactly when that would be. */
  lemma HeartbeatIsEmptyRequest(rules: Rules, x: Node, y: Node, p: nat)
    ensures HeartbeatRequest(x, p) == ReplicateRequest(x, p).(entries := [])
    ensures HandleAppend(rules, y, HeartbeatRequest(x, p)).1.success <==>
            HandleAppend(rules, y, ReplicateRequest(x, p)).1.success
    ensures HandleAppend(rules, y, HeartbeatRequest(x, p)).0.log == y.log
  {}

  /** The answer to an append request tells the peer's term and last index as they are afterwards. It is a success if
      and only if the request is not of an earlier term and the peer holds the entry before those sent. */
  lemma AnswerTells(rules: Rules, y: Node, req: AppendRequest)
    requires Indexed(y.log)
    ensures var (z, resp) := HandleAppend(rules, y, req);
            && resp.term == z.term && resp.lastIndex == LastIndex(z.log)
            && z.term == Max(y.term, req.term) && (req.term >= y.term ==> z.role == Follower)
            && (resp.success <==>
                && req.term >= y.term
                && (req.prevIndex == 0
                    || (req.prevIndex <= |y.log| && y.log[req.prevIndex - 1].term == req.prevTerm)))
            && (!resp.success ==> z.log == y.log && z.commit == y.commit)
  {}

  // ----- one round -----

  /** A peer that has heard from the leader and changed nothing else. */
  function Following(rules: Rules, x: Node, y: Node): Node {
    y.(term := x.term, role := Follower,
       votedFor := if rules.keepVote && y.term == x.term then y.votedFor else None)
  }

  /** A rejected round: the leader goes back one place and nothing else happens but the peer following the leader. */
  lemma RejectedRound(rules: Rules, n: nat, x: Node, y: Node, p: nat)
    requires n > 0 && Paired(x, y, p) && !Meet(x.log, y.log, NextFor(x, p) - 1)
    ensures Round(rules, n, x, y, p) ==
            (x.(nextIndex := x.nextIndex[p := NextFor(x, p) - 1]), Following(rules, x, y))
  {
    MeetIsHeld(x, y.log, p);
    RequestCut(x, p);
  }

  /** No index above the commit index could be committed. */
  ghost predicate CommitsAllItMay(n: nat, x: Node)
    requires n > 0
  {
    forall j :: x.commit < j ==> !CanCommit(n, x, j)
  }

  /** After an accepted round the peer's log begins with the leader's, and its commit index has caught up. */
  ghost predicate PeerHas(x: Node, y: Node, y': Node) {
    && x.log <= y'.log && y'.log == Adopt(y.log, x.log) && y'.term == x.term && y'.role == Follower && y'.id == y.id
    && y'.commit >= Min(x.commit, |x.log|) && (x.commit <= |x.log| ==> y'.commit == Max(y.commit, x.commit))
  }

  /** If entries were sent, the leader knows that the peer has all of its log, and commits all it may. */
  ghost predicate LeaderKnows(n: nat, x: Node, x': Node, p: nat, sent: bool)
    requires n > 0
  {
    && x'.log == x.log && x'.term == x.term && x'.role == Leader && x'.id == x.id
    && (!sent ==> x' == x)
    && (sent ==>
        && x'.matchIndex == x.matchIndex[p := |x.log|] && x'.nextIndex == x.nextIndex[p := |x.log| + 1]
        && x.commit <= x'.commit && CommitsAllItMay(n, x'))
  }

  ghost predicate CaughtUp(n: nat, x: Node, y: Node, x': Node, y': Node, p: nat, sent: bool)
    requires n > 0
  {
    PeerHas(x, y, y') && LeaderKnows(n, x, x', p, sent)
  }

  lemma AcceptedLog(rules: Rules, x: Node, y: Node, p: nat, req: AppendRequest)
    requires Paired(x, y, p) && Meet(x.log, y.log, NextFor(x, p) - 1) && req == ReplicateRequest(x, p)
    ensures var (z, resp) := HandleAppend(rules, y, req);
            && resp == AppendResponse(x.term, true, LastIndex(z.log)) && z.role == Follower && z.term == x.term
            && z.log == Adopt(y.log, x.log) && x.log <= z.log && Indexed(z.log) && z.id == y.id
            && z.commit == FollowerCommit(rules, y.commit, z.log, req)
  {
    RequestCut(x, p);
    MeetIsHeld(x, y.log, p);
    MergeAdopts(y.log, x.log, req);
    assert x.log[..|x.log|] == x.log;
    AdoptedAgrees(y.log, x.log, |x.log|);
  }

  lemma AcceptedCommit(rules: Rules, commit: nat, log: Log, req: AppendRequest, leader: Log)
    requires Indexed(log) && |leader| <= |log| && |leader| == req.prevIndex + |req.entries|
    ensures FollowerCommit(rules, commit, log, req) >= Min(req.leaderCommit, |leader|)
    ensures req.leaderCommit <= |leader| ==> FollowerCommit(rules, commit, log, req) == Max(commit, req.leaderCommit)
  {}

  lemma CommitUpdated(n: nat, x: Node)
    requires n > 0 && x.role == Leader && Indexed(x.log)
    ensures var y := UpdateCommit(n, x); x.commit <= y.commit && y == x.(commit := y.commit) && CommitsAllItMay(n, y)
  {
    CommitPointSound(n, x, LastIndex(x.log));
    var y := UpdateCommit(n, x);
    forall j | y.commit < j ensures !CanCommit(n, y, j) {
      assert CanCommit(n, y, j) <==> CanCommit(n, x, j);
    }
  }

  /** What the leader makes of a success. */
  lemma SuccessCounted(n: nat, x: Node, p: nat, req: AppendRequest, resp: AppendResponse)
    requires n > 0 && x.role == Leader && resp.success && resp.term == x.term && Indexed(x.log)
    requires req.prevIndex + |req.entries| == |x.log|
    ensures LeaderKnows(n, x, HandleAppendResponse(n, x, p, req, resp), p, req.entries != [])
  {
    CommitUpdated(n, x.(matchIndex := x.matchIndex[p := |x.log|], nextIndex := x.nextIndex[p := |x.log| + 1]));
  }

  lemma AcceptedPeer(rules: Rules, x: Node, y: Node, p: nat, req: AppendRequest)
    requires Paired(x, y, p) && Meet(x.log, y.log, NextFor(x, p) - 1) && req == ReplicateRequest(x, p)
    ensures var (z, resp) := HandleAppend(rules, y, req); PeerHas(x, y, z) && resp.success && resp.term == x.term
  {
    var z := HandleAppend(rules, y, req).0;
    RequestCut(x, p);
    AcceptedLog(rules, x, y, p, req);
    AcceptedCommit(rules, y.commit, z.log, req, x.log);
  }

  lemma AcceptedRound(rules: Rules, n: nat, x: Node, y: Node, p: nat)
    requires n > 0 && Paired(x, y, p) && Meet(x.log, y.log, NextFor(x, p) - 1)
    ensures var (x', y') := Round(rules, n, x, y, p); CaughtUp(n, x, y, x', y', p, NextFor(x, p) <= |x.log|)
  {
    var req := ReplicateRequest(x, p);
    RequestCut(x, p);
    AcceptedPeer(rules, x, y, p, req);
    SuccessCounted(n, x, p, req, HandleAppend(rules, y, req).1);
  }

  // ----- all rounds -----

  /** The leader after j rejections. */
  function Backed(x: Node, p: nat, j: nat): Node {
    if 0 < j < NextFor(x, p) then x.(nextIndex := x.nextIndex[p := NextFor(x, p) - j]) else x
  }

  /** The peer after j rejections. */
  function Followed(rules: Rules, x: Node, y: Node, j: nat): Node {
    if j == 0 then y else Following(rules, x, y)
  }

  lemma BackedPaired(rules: Rules, x: Node, y: Node, p: nat, j: nat)
    requires Paired(x, y, p) && j < NextFor(x, p)
    ensures Paired(Backed(x, p, j), Followed(rules, x, y, j), p) && NextFor(Backed(x, p, j), p) == NextFor(x, p) - j
    ensures Backed(x, p, j).log == x.log && Followed(rules, x, y, j).log == y.log
  {}

  lemma BackedAgain(x: Node, p: nat, j: nat)
    requires j + 1 < NextFor(x, p)
    ensures var a := Backed(x, p, j); Backed(x, p, j + 1) == a.(nextIndex := a.nextIndex[p := NextFor(a, p) - 1])
  {}

  lemma FollowedAgain(rules: Rules, x: Node, y: Node, p: nat, j: nat)
    ensures Following(rules, Backed(x, p, j), Followed(rules, x, y, j)) == Followed(rules, x, y, j + 1)
  {}

  lemma RejectedAt(rules: Rules, n: nat, x: Node, y: Node, p: nat, j: nat)
    requires n > 0 && Paired(x, y, p) && j < NextFor(x, p) && !Meet(x.log, y.log, NextFor(x, p) - 1 - j)
    ensures Round(rules, n, Backed(x, p, j), Followed(rules, x, y, j), p) ==
            (Backed(x, p, j + 1), Followed(rules, x, y, j + 1))
  {
    BackedPaired(rules, x, y, p, j);
    RejectedRound(rules, n, Backed(x, p, j), Followed(rules, x, y, j), p);
    BackedAgain(x, p, j);
    FollowedAgain(rules, x, y, p, j);
  }

  /** The logs meet k places back from index i, and at no place between. */
  ghost predicate MeetBack(x: Log, y: Log, i: nat, k: nat) {
    k <= i && Meet(x, y, i - k) && forall j :: i - k < j <= i ==> !Meet(x, y, j)
  }

  lemma {:induction false} MeetSomewhere(x: Log, y: Log, i: nat) returns (k: nat)
    ensures MeetBack(x, y, i, k)
    decreases i
  {
    if Meet(x, y, i) {
      k := 0;
    } else {
      var j := MeetSomewhere(x, y, i - 1);
      k := j + 1;
    }
  }

  /** The first k rounds are rejected, each moving the leader back one place, and exactly until the logs meet. */
  ghost predicate Rejections(rules: Rules, n: nat, x: Node, y: Node, p: nat, k: nat)
    requires n > 0
  {
    && MeetBack(x.log, y.log, NextFor(x, p) - 1, k)
    && forall j :: 0 <= j < k ==>
         Round(rules, n, Backed(x, p, j), Followed(rules, x, y, j), p) ==
           (Backed(x, p, j + 1), Followed(rules, x, y, j + 1))
  }

  lemma GoesBack(rules: Rules, n: nat, x: Node, y: Node, p: nat) returns (k: nat)
    requires n > 0 && Paired(x, y, p)
    ensures Rejections(rules, n, x, y, p, k)
  {
    k := MeetSomewhere(x.log, y.log, NextFor(x, p) - 1);
    forall j | 0 <= j < k
      ensures Round(rules, n, Backed(x, p, j), Followed(rules, x, y, j), p) ==
              (Backed(x, p, j + 1), Followed(rules, x, y, j + 1))
    {
      RejectedAt(rules, n, x, y, p, j);
    }
  }

  lemma CaughtUpFrom(rules: Rules, n: nat, x: Node, y: Node, x': Node, y': Node, p: nat, k: nat, sent: bool)
    requires n > 0 && k < NextFor(x, p) && (k > 0 ==> sent)
    requires CaughtUp(n, Backed(x, p, k), Followed(rules, x, y, k), x', y', p, sent)
    ensures CaughtUp(n, x, y, x', y', p, sent)
  {}

  /** A leader's rounds with a peer that is not in a later term are rejected fewer times than the index it starts at,
      each moving it back one place, and exactly until the logs meet. The next round is accepted and ends with the
      leader's log at the start of the peer's; if it carried entries, the leader knows. */
  lemma RoundsConverge(rules: Rules, n: nat, x: Node, y: Node, p: nat) returns (k: nat)
    requires n > 0 && Paired(x, y, p)
    ensures Rejections(rules, n, x, y, p, k) && k <= NextFor(x, p) - 1
    ensures var (x', y') := Round(rules, n, Backed(x, p, k), Followed(rules, x, y, k), p);
            CaughtUp(n, x, y, x', y', p, k > 0 || NextFor(x, p) <= |x.log|)
  {
    k := GoesBack(rules, n, x, y, p);
    BackedPaired(rules, x, y, p, k);
    AcceptedRound(rules, n, Backed(x, p, k), Followed(rules, x, y, k), p);
    var (x', y') := Round(rules, n, Backed(x, p, k), Followed(rules, x, y, k), p);
    CaughtUpFrom(rules, n, x, y, x', y', p, k, k > 0 || NextFor(x, p) <= |x.log|);
  }

  // ----- in the cluster -----

  /** A round is three steps of the cluster. */
  lemma RoundRuns(rules: Rules, n: nat, r: iset<Cluster>, q: set<nat>, s: Cluster, c: nat, p: nat) returns (s': Cluster)
    requires ClosedFor(rules, n, r, q) && s in r && Shape(n, s) && c < n && p < n && p != c && s.nodes[c].role == Leader
    requires c in q && p in q
    ensures var (x', y') := Round(rules, n, s.nodes[c], s.nodes[p], p);
            s' in r && s'.nodes == s.nodes[p := y'][c := x'] && s.sent <= s'.sent
  {
    var req := ReplicateRequest(s.nodes[c], p);
    var resp := HandleAppend(rules, s.nodes[p], req).1;
    s' := Act(rules, n, r, q, s, Replicate(c, p));
    s' := Act(rules, n, r, q, s', ReceiveAppend(p, req));
    s' := Act(rules, n, r, q, s', ReceiveAnswer(c, p, req, resp));
  }

  /** The rejected rounds, as steps of the cluster. */
  lemma {:induction false} RejectionsRun(rules: Rules, n: nat, r: iset<Cluster>, q: set<nat>, s: Cluster, c: nat,
                                         p: nat, k: nat, j: nat) returns (s': Cluster)
    requires ClosedFor(rules, n, r, q) && s in r && Shape(n, s) && c < n && p < n && p != c && c in q && p in q
    requires s.nodes[c].role == Leader && Rejections(rules, n, s.nodes[c], s.nodes[p], p, k) && j <= k
    ensures s' in r && Shape(n, s') && s.sent <= s'.sent
    ensures s'.nodes == s.nodes[p := Followed(rules, s.nodes[c], s.nodes[p], j)][c := Backed(s.nodes[c], p, j)]
    decreases j
  {
    if j == 0 {
      s' := s;
    } else {
      var mid := RejectionsRun(rules, n, r, q, s, c, p, k, j - 1);
      s' := RoundRuns(rules, n, r, q, mid, c, p);
    }
  }

  lemma CoherentPaired(reigns: map<nat, Reign>, x: Node, y: Node, p: nat)
    requires x.role == Leader && y.term <= x.term && NextFor(x, p) <= |x.log| + 1
    requires Coherent(reigns, x.log) && Coherent(reigns, y.log)
    ensures Paired(x, y, p)
  {
    CoherentAgree(reigns, y.log, x.log);
  }

  lemma LeaderPaired(n: nat, s: Cluster, c: nat, p: nat)
    requires |s.nodes| == n && LogsSound(n, s) && NextIndexSound(n, s) && c < n && p < n && p != c
    requires s.nodes[c].role == Leader && s.nodes[p].term <= s.nodes[c].term
    ensures Paired(s.nodes[c], s.nodes[p], p)
  {
    assert p in Peers(n, c);
    CoherentPaired(s.reigns, s.nodes[c], s.nodes[p], p);
  }

  /** The leader and the peer have had their rounds; no one else has moved. */
  ghost predicate BroughtUp(n: nat, s: Cluster, s': Cluster, c: nat, p: nat, sent: bool)
    requires n > 0
  {
    && |s.nodes| == n == |s'.nodes| && c < n && p < n && s.sent <= s'.sent
    && CaughtUp(n, s.nodes[c], s.nodes[p], s'.nodes[c], s'.nodes[p], p, sent)
    && forall u :: 0 <= u < n && u != c && u != p ==> s'.nodes[u] == s.nodes[u]
  }

  lemma CatchesUp(rules: Rules, n: nat, r: iset<Cluster>, q: set<nat>, s: Cluster, c: nat, p: nat)
    returns (s': Cluster, k: nat)
    requires ClosedFor(rules, n, r, q) && s in r && Shape(n, s) && c < n && p < n && p != c && c in q && p in q
    requires Paired(s.nodes[c], s.nodes[p], p)
    ensures s' in r && Rejections(rules, n, s.nodes[c], s.nodes[p], p, k) && k <= NextFor(s.nodes[c], p) - 1
    ensures BroughtUp(n, s, s', c, p, k > 0 || NextFor(s.nodes[c], p) <= |s.nodes[c].log|)
  {
    k := RoundsConverge(rules, n, s.nodes[c], s.nodes[p], p);
    var mid := RejectionsRun(rules, n, r, q, s, c, p, k, k);
    s' := RoundRuns(rules, n, r, q, mid, c, p);
  }

  /** In every state of a run that elects safely, a leader brings any peer that is not in a later term up to its own log
      by such rounds alone. */
  lemma PeerCatchesUp(rules: Rules, n: nat, ss: seq<Cluster>, acts: seq<Action>, i: nat, c: nat, p: nat)
    returns (s': Cluster, k: nat)
    requires ElectingRun(rules, n, ss, acts) && i < |ss| && c < n && p < n && p != c
    requires ss[i].nodes[c].role == Leader && ss[i].nodes[p].term <= ss[i].nodes[c].term
    ensures LeadsTo(rules, n, {c, p}, ss[i], s')
    ensures Rejections(rules, n, ss[i].nodes[c], ss[i].nodes[p], p, k) && k <= NextFor(ss[i].nodes[c], p) - 1
    ensures BroughtUp(n, ss[i], s', c, p, k > 0 || NextFor(ss[i].nodes[c], p) <= |ss[i].nodes[c].log|)
  {
    ElectingInv(rules, n, ss, acts, i);
    LeaderPaired(n, ss[i], c, p);
    var r := LeadsClosed(rules, n, {c, p}, ss[i]);
    s', k := CatchesUp(rules, n, r, {c, p}, ss[i], c, p);
  }
}
