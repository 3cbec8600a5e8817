/** Building blocks for runs of a cluster of any size: elections by a range of voters, and an entry spread. */
module RaftRuns {
  import opened Wrappers
  import opened RaftTypes
  import opened RaftSteps
  import opened RaftCluster
  import opened RaftCompleteness
  import opened RaftSafety
  import opened Sets

  /** A run leads to the state; if asked for, one whose restarts lose no log. */
  ghost predicate Reachable(rules: Rules, n: nat, keep: bool, s: Cluster) {
    exists ss: seq<Cluster>, acts: seq<Action> ::
      Run(rules, n, ss, acts) && (keep ==> KeepsLogs(ss, acts)) && ss[|acts|] == s
  }

  /** A set of states that no step but a restart leaves; the runs below are built inside any such set. */
  ghost predicate Closed(rules: Rules, n: nat, r: iset<Cluster>) {
    forall s, a {:trigger Next(rules, n, s, a)} ::
      s in r && |s.nodes| == n && Enabled(n, s, a) && !a.Crash? ==> Next(rules, n, s, a) in r
  }

  ghost predicate Restartable(rules: Rules, n: nat, r: iset<Cluster>) {
    forall s, i: nat {:trigger Next(rules, n, s, Crash(i))} ::
      s in r && |s.nodes| == n && i < n ==> Next(rules, n, s, Crash(i)) in r
  }

  /** A run goes on with any enabled step. */
  lemma RunGrows(rules: Rules, n: nat, ss: seq<Cluster>, acts: seq<Action>, a: Action, s': Cluster)
    requires Run(rules, n, ss, acts) && Enabled(n, ss[|acts|], a) && s' == Next(rules, n, ss[|acts|], a)
    ensures Run(rules, n, ss + [s'], acts + [a])
  {
    var ss', acts' := ss + [s'], acts + [a];
    forall k | 0 <= k < |acts'|
      ensures Enabled(n, ss'[k], acts'[k]) && ss'[k + 1] == Next(rules, n, ss'[k], acts'[k])
    {
      if k < |acts| { assert ss'[k] == ss[k] && ss'[k + 1] == ss[k + 1] && acts'[k] == acts[k]; }
    }
  }

  lemma KeepsGrows(ss: seq<Cluster>, acts: seq<Action>, a: Action, s': Cluster)
    requires |ss| == |acts| + 1 && KeepsLogs(ss, acts) && !a.Crash?
    ensures KeepsLogs(ss + [s'], acts + [a])
  {
    var ss', acts' := ss + [s'], acts + [a];
    forall k | 0 <= k < |acts'| ensures LosesNoLog(ss'[k], acts'[k]) {
      if k < |acts| { assert LosesNoLog(ss[k], acts[k]); }
    }
  }

  lemma ReachNext(rules: Rules, n: nat, keep: bool, s: Cluster, a: Action, s': Cluster)
    requires Reachable(rules, n, keep, s) && |s.nodes| == n && Enabled(n, s, a) && (keep ==> !a.Crash?)
    requires s' == Next(rules, n, s, a)
    ensures Reachable(rules, n, keep, s')
  {
    var ss: seq<Cluster>, acts: seq<Action> :|
      Run(rules, n, ss, acts) && (keep ==> KeepsLogs(ss, acts)) && ss[|acts|] == s;
    RunGrows(rules, n, ss, acts, a, s');
    if keep { KeepsGrows(ss, acts, a, s'); }
    assert (ss + [s'])[|acts + [a]|] == s';
  }

  lemma ReachableClosed(rules: Rules, n: nat, keep: bool) returns (r: iset<Cluster>)
    requires n > 0
    ensures Closed(rules, n, r) && (!keep ==> Restartable(rules, n, r)) && Init(n) in r
    ensures forall s :: s in r <==> Reachable(rules, n, keep, s)
  {
    r := iset s | Reachable(rules, n, keep, s);
    assert Run(rules, n, [Init(n)], []) && KeepsLogs([Init(n)], []);
    forall s, a | s in r && |s.nodes| == n && Enabled(n, s, a) && !a.Crash? ensures Next(rules, n, s, a) in r {
      ReachNext(rules, n, keep, s, a, Next(rules, n, s, a));
    }
    if !keep {
      forall s, i: nat | s in r && |s.nodes| == n && i < n ensures Next(rules, n, s, Crash(i)) in r {
        ReachNext(rules, n, keep, s, Crash(i), Next(rules, n, s, Crash(i)));
      }
    }
  }

  /** Takes one step, and tells what becomes of the servers and the messages. */
  lemma Take(rules: Rules, n: nat, r: iset<Cluster>, s: Cluster, a: Action) returns (s': Cluster)
    requires Closed(rules, n, r) && s in r && |s.nodes| == n && Enabled(n, s, a) && !a.Crash?
    ensures s' in r && |s'.nodes| == n && s'.sent == s.sent + Outgoing(rules, s.nodes[a.i], a)
    ensures s'.nodes == s.nodes[a.i := Moved(rules, n, s.nodes[a.i], a)]
  {
    s' := Next(rules, n, s, a);
  }

  lemma TakeRestart(rules: Rules, n: nat, r: iset<Cluster>, s: Cluster, i: nat) returns (s': Cluster)
    requires Restartable(rules, n, r) && s in r && |s.nodes| == n && i < n
    ensures s' in r && |s'.nodes| == n && s'.nodes == s.nodes[i := Restart(s.nodes[i])] && s'.sent == s.sent
  {
    s' := Next(rules, n, s, Crash(i));
  }

  /** The servers outside the range, but for one, are as they were. */
  ghost predicate Elsewhere(n: nat, s: Cluster, s': Cluster, c: nat, lo: nat, hi: nat)
    requires |s.nodes| == n == |s'.nodes|
  {
    forall u :: 0 <= u < n && u != c && !(lo <= u < hi) ==> s'.nodes[u] == s.nodes[u]
  }

  function Range(lo: nat, hi: nat): (r: set<nat>)
    ensures forall v :: v in r <==> lo <= v < hi
    ensures lo <= hi ==> |r| == hi - lo
    decreases hi
  {
    if hi <= lo then {} else Range(lo, hi - 1) + {hi - 1}
  }

  // ----- elections in term t among servers with nothing in their logs -----

  function Ask(c: nat, t: nat): VoteRequest { VoteRequest(t, c, 0, 0) }

  predicate Running(x: Node, c: nat, t: nat, tally: set<nat>) {
    && x.id == c && x.role == Candidate && x.term == t && x.votedFor == Some(c) && x.log == [] && x.commit == 0
    && x.tally == tally
  }

  /** A server that will grant its vote for term t to whoever asks first. */
  predicate Open(x: Node, t: nat) {
    x.log == [] && x.commit == 0 && (x.term < t || (x.term == t && x.role == Follower && x.votedFor == None))
  }

  predicate Pledged(x: Node, c: nat, t: nat) {
    x.role == Follower && x.log == [] && x.commit == 0 && x.term == t && x.votedFor == Some(c)
  }

  /** A leader of term t with nothing in its log, about to send everyone its first entry. */
  predicate Leading(n: nat, x: Node, c: nat, t: nat) {
    && x.id == c && x.role == Leader && x.term == t && x.log == [] && x.commit == 0
    && forall p :: p in Peers(n, c) ==> Lookup(x.nextIndex, p) == 1
  }

  /** Server c runs for the next term and asks for votes. */
  lemma Candidacy(rules: Rules, n: nat, r: iset<Cluster>, s: Cluster, c: nat) returns (s': Cluster)
    requires Closed(rules, n, r) && s in r && |s.nodes| == n && c < n
    requires var x := s.nodes[c]; x.id == c && x.role != Leader && x.log == [] && x.commit == 0
    ensures s' in r && |s'.nodes| == n && s.sent <= s'.sent && s'.nodes == s.nodes[c := s'.nodes[c]]
    ensures var t := s.nodes[c].term + 1; Running(s'.nodes[c], c, t, {}) && AskVote(Ask(c, t)) in s'.sent
  {
    s' := Take(rules, n, r, s, Timeout(c));
    s' := Take(rules, n, r, s', Campaign(c));
  }

  /** Voter v answers candidate c, and c counts the answer. */
  lemma PollOne(rules: Rules, n: nat, r: iset<Cluster>, s: Cluster, c: nat, t: nat, v: nat) returns (s': Cluster)
    requires Closed(rules, n, r) && s in r && |s.nodes| == n && c < n && v < n && v != c
    requires Running(s.nodes[c], c, t, s.nodes[c].tally) && AskVote(Ask(c, t)) in s.sent && Open(s.nodes[v], t)
    ensures s' in r && |s'.nodes| == n && s.sent <= s'.sent
    ensures Pledged(s'.nodes[v], c, t) && s'.nodes[v].id == s.nodes[v].id
    ensures s'.nodes == s.nodes[v := s'.nodes[v]][c := s'.nodes[c]]
    ensures s'.nodes[c] == CountVote(n, s.nodes[c], t, v, VoteResponse(t, true))
  {
    var grant := VoteResponse(t, true);
    s' := Take(rules, n, r, s, ReceiveAskVote(v, Ask(c, t)));
    assert HandleVoteRequest(s.nodes[v], Ask(c, t)).1 == grant;
    assert AnswerVote(t, c, v, grant) in s'.sent;
    s' := Take(rules, n, r, s', ReceiveVote(c, t, v, grant));
  }

  lemma Counting(n: nat, x: Node, t: nat, v: nat)
    requires n > 0 && Running(x, x.id, t, x.tally) && v !in x.tally
    ensures var y := CountVote(n, x, t, v, VoteResponse(t, true));
            if |x.tally| + 2 >= Majority(n) then Leading(n, y, x.id, t) else y == x.(tally := x.tally + {v})
  {}

  lemma PollGain(rules: Rules, n: nat, r: iset<Cluster>, s: Cluster, c: nat, t: nat, v: nat) returns (s': Cluster)
    requires Closed(rules, n, r) && s in r && |s.nodes| == n && c < n && v < n && v != c && v !in s.nodes[c].tally
    requires Running(s.nodes[c], c, t, s.nodes[c].tally) && AskVote(Ask(c, t)) in s.sent && Open(s.nodes[v], t)
    ensures s' in r && |s'.nodes| == n && s.sent <= s'.sent
    ensures Pledged(s'.nodes[v], c, t) && s'.nodes[v].id == s.nodes[v].id
    ensures forall u :: 0 <= u < n && u != c && u != v ==> s'.nodes[u] == s.nodes[u]
    ensures if |s.nodes[c].tally| + 2 >= Majority(n) then Leading(n, s'.nodes[c], c, t)
            else Running(s'.nodes[c], c, t, s.nodes[c].tally + {v})
  {
    s' := PollOne(rules, n, r, s, c, t, v);
    Counting(n, s.nodes[c], t, v);
  }

  /** The servers lo .. hi-1 have turned to candidate c; the others have not moved. */
  ghost predicate WonOver(n: nat, s: Cluster, s': Cluster, c: nat, t: nat, lo: nat, hi: nat)
    requires |s.nodes| == n == |s'.nodes| && hi <= n && c < n
  {
    && s.sent <= s'.sent && Elsewhere(n, s, s', c, lo, hi)
    && (forall v :: lo <= v < hi ==> Pledged(s'.nodes[v], c, t) && s'.nodes[v].id == s.nodes[v].id)
  }

  /** Candidate c has asked, and the servers lo .. hi-1 are open. */
  ghost predicate Canvasses(n: nat, s: Cluster, c: nat, t: nat, lo: nat, hi: nat)
    requires |s.nodes| == n
  {
    && c < n && lo <= hi <= n && !(lo <= c < hi) && Running(s.nodes[c], c, t, {}) && AskVote(Ask(c, t)) in s.sent
    && forall v :: lo <= v < hi ==> Open(s.nodes[v], t)
  }

  lemma WonOneMore(n: nat, s: Cluster, mid: Cluster, s': Cluster, c: nat, t: nat, lo: nat, v: nat)
    requires |s.nodes| == |mid.nodes| == |s'.nodes| == n && c < n && lo <= v < n && !(lo <= c <= v)
    requires WonOver(n, s, mid, c, t, lo, v) && mid.sent <= s'.sent
    requires forall u :: 0 <= u < n && u != c && u != v ==> s'.nodes[u] == mid.nodes[u]
    requires Pledged(s'.nodes[v], c, t) && s'.nodes[v].id == mid.nodes[v].id
    ensures WonOver(n, s, s', c, t, lo, v + 1)
  {}

  /** Candidate c wins over the servers lo .. hi-1, one after the other, short of a majority. */
  lemma {:induction false} Gather(rules: Rules, n: nat, r: iset<Cluster>, s: Cluster, c: nat, t: nat, lo: nat, hi: nat)
    returns (s': Cluster)
    requires Closed(rules, n, r) && s in r && |s.nodes| == n && Canvasses(n, s, c, t, lo, hi)
    requires lo == hi || hi - lo + 1 < Majority(n)
    ensures s' in r && |s'.nodes| == n && WonOver(n, s, s', c, t, lo, hi) && Running(s'.nodes[c], c, t, Range(lo, hi))
    decreases hi
  {
    if lo == hi {
      s' := s;
    } else {
      var mid := Gather(rules, n, r, s, c, t, lo, hi - 1);
      assert Open(mid.nodes[hi - 1], t);
      s' := PollGain(rules, n, r, mid, c, t, hi - 1);
      WonOneMore(n, s, mid, s', c, t, lo, hi - 1);
    }
  }

  /** ... and takes the lead with the last of them. */
  lemma Poll(rules: Rules, n: nat, r: iset<Cluster>, s: Cluster, c: nat, t: nat, lo: nat, hi: nat) returns (s': Cluster)
    requires Closed(rules, n, r) && s in r && |s.nodes| == n && Canvasses(n, s, c, t, lo, hi) && lo < hi
    requires Majority(n) <= hi - lo + 1 && (hi - lo == 1 || hi - lo < Majority(n))
    ensures s' in r && |s'.nodes| == n && WonOver(n, s, s', c, t, lo, hi) && Leading(n, s'.nodes[c], c, t)
  {
    var mid := Gather(rules, n, r, s, c, t, lo, hi - 1);
    s' := PollGain(rules, n, r, mid, c, t, hi - 1);
  }

  /** Server c runs for the next term and is elected by the servers 1 .. hi-1. */
  lemma Elect(rules: Rules, n: nat, r: iset<Cluster>, s: Cluster, c: nat, hi: nat) returns (s': Cluster)
    requires Closed(rules, n, r) && s in r && |s.nodes| == n && c < n && 1 < hi <= n && !(1 <= c < hi)
    requires Majority(n) <= hi && (hi == 2 || hi == Majority(n))
    requires var x := s.nodes[c]; x.id == c && x.role != Leader && x.log == [] && x.commit == 0
    requires forall v :: 1 <= v < hi ==> Open(s.nodes[v], s.nodes[c].term + 1)
    ensures s' in r && |s'.nodes| == n && WonOver(n, s, s', c, s.nodes[c].term + 1, 1, hi)
    ensures Leading(n, s'.nodes[c], c, s.nodes[c].term + 1)
  {
    var mid := Candidacy(rules, n, r, s, c);
    s' := Poll(rules, n, r, mid, c, s.nodes[c].term + 1, 1, hi);
  }

  lemma PairCounts(x: Node, c: nat, t: nat, v: nat, answer: VoteResponse)
    requires Running(x, c, t, {}) && answer.term <= t
    ensures var y := CountVote(2, x, t, v, answer); Leading(2, y, c, t) && y.votedFor == Some(c)
  {}

  lemma AnswerTerm(v: Node, c: nat, t: nat)
    requires v.term <= t
    ensures HandleVoteRequest(v, Ask(c, t)).1.term <= t
  {}

  /** With two servers the threshold is one, so whatever the other server answers makes the candidate leader. */
  lemma AnyAnswerElects(rules: Rules, r: iset<Cluster>, s: Cluster, c: nat, t: nat) returns (s': Cluster)
    requires Closed(rules, 2, r) && s in r && |s.nodes| == 2 && c < 2
    requires Running(s.nodes[c], c, t, {}) && AskVote(Ask(c, t)) in s.sent && s.nodes[1 - c].term <= t
    ensures s' in r && |s'.nodes| == 2 && s.sent <= s'.sent
    ensures s'.nodes[1 - c] == HandleVoteRequest(s.nodes[1 - c], Ask(c, t)).0
    ensures Leading(2, s'.nodes[c], c, t) && s'.nodes[c].votedFor == Some(c)
  {
    var v := 1 - c;
    var answer := HandleVoteRequest(s.nodes[v], Ask(c, t)).1;
    s' := Take(rules, 2, r, s, ReceiveAskVote(v, Ask(c, t)));
    assert AnswerVote(t, c, v, answer) in s'.sent;
    AnswerTerm(s.nodes[v], c, t);
    PairCounts(s.nodes[c], c, t, v, answer);
    s' := Take(rules, 2, r, s', ReceiveVote(c, t, v, answer));
  }

  // ----- an entry spread by a leader -----

  /** A leader with this one entry, which the servers in the set have acknowledged. */
  predicate Spreads(n: nat, x: Node, c: nat, e: Entry, acked: set<nat>) {
    && x.id == c && x.role == Leader && x.term == e.term && x.log == [e] && e.index == 1 && x.commit <= 1
    && (forall p :: p in Peers(n, c) && p !in acked ==> Lookup(x.nextIndex, p) == 1)
    && forall p :: p in acked ==> Lookup(x.nextIndex, p) == 2 && p in x.matchIndex && x.matchIndex[p] >= 1
  }

  /** A server that takes the entry over, or has one of its own in its place that the leader does not notice. */
  predicate Receptive(v: Node, e: Entry) {
    v.term <= e.term && v.commit <= 1
        && (v.log == [] || (|v.log| == 1 && v.log[0].term == e.term && v.log[0].index == 1))
  }

  predicate Received(v: Node, v': Node, e: Entry) {
    && v'.id == v.id && v'.role == Follower && v'.term == e.term && v'.commit <= 1
    && v'.log == if v.log == [] then [e] else v.log
  }

  function Carrying(e: Entry, c: nat, commit: nat): AppendRequest { AppendRequest(e.term, c, 0, 0, [e], commit) }

  lemma Appends(n: nat, x: Node, c: nat, e: Entry)
    requires Leading(n, x, c, e.term) && e.index == 1
    ensures AppendEntry(x, e.kind, e.data, e.timestamp) == x.(log := [e]) && Spreads(n, x.(log := [e]), c, e, {})
  {
    assert [] + [e] == [e];
  }

  /** A new leader takes a command. */
  lemma TakesCommand(rules: Rules, n: nat, r: iset<Cluster>, s: Cluster, c: nat, e: Entry) returns (s': Cluster)
    requires Closed(rules, n, r) && s in r && |s.nodes| == n && c < n
    requires Leading(n, s.nodes[c], c, e.term) && e.index == 1
    ensures s' in r && |s'.nodes| == n && s'.nodes == s.nodes[c := s.nodes[c].(log := [e])] && s.sent <= s'.sent
    ensures Spreads(n, s'.nodes[c], c, e, {})
  {
    Appends(n, s.nodes[c], c, e);
    s' := Take(rules, n, r, s, ClientAppend(c, e.kind, e.data, e.timestamp));
  }

  lemma TakesOver(rules: Rules, v: Node, e: Entry, c: nat, commit: nat)
    requires Receptive(v, e) && e.index == 1 && commit <= 1
    ensures var (y, resp) := HandleAppend(rules, v, Carrying(e, c, commit));
            Received(v, y, e) && resp.success && resp.term == e.term
  {
    assert [] + [e] == [e];
    assert AppendNew([e], 0, [e], 1) == [e];
    assert CutAtConflict(v.log, 0, [e], 1) == v.log && AppendNew(v.log, 0, [e], 1) == v.log;
  }

  /** Committing a log of one entry of the leader's term. */
  lemma CommitsOne(n: nat, z: Node, e: Entry, acked: set<nat>)
    requires n > 0 && z.role == Leader && z.log == [e] && z.term == e.term && e.index == 1 && z.commit <= 1
    requires forall p :: p in acked ==> p in z.matchIndex && z.matchIndex[p] >= 1
    ensures var y := UpdateCommit(n, z);
            y == z.(commit := y.commit) && y.commit <= 1 && (|acked| + 1 >= Majority(n) ==> y.commit == 1)
  {
    assert acked <= Acknowledged(z, 1);
    SubsetSize(acked, Acknowledged(z, 1));
    assert CommitPoint(n, z, 0) == z.commit;
  }

  lemma CountedSpreads(n: nat, x: Node, c: nat, p: nat, e: Entry, acked: set<nat>, z: Node)
    requires Spreads(n, x, c, e, acked)
    requires z == x.(matchIndex := x.matchIndex[p := 1], nextIndex := x.nextIndex[p := 2])
    ensures Spreads(n, z, c, e, acked + {p})
  {}

  lemma Counts(n: nat, x: Node, c: nat, p: nat, e: Entry, commit: nat, resp: AppendResponse, acked: set<nat>)
    requires n > 0 && Spreads(n, x, c, e, acked) && p !in acked && resp.success && resp.term == e.term
    ensures var y := HandleAppendResponse(n, x, p, Carrying(e, c, commit), resp);
            Spreads(n, y, c, e, acked + {p}) && (|acked| + 2 >= Majority(n) ==> y.commit == 1)
  {
    var z := x.(matchIndex := x.matchIndex[p := 1], nextIndex := x.nextIndex[p := 2]);
    assert HandleAppendResponse(n, x, p, Carrying(e, c, commit), resp) == UpdateCommit(n, z);
    CountedSpreads(n, x, c, p, e, acked, z);
    CommitsOne(n, z, e, acked + {p});
    assert |acked + {p}| == |acked| + 1;
  }

  lemma RequestCarries(n: nat, x: Node, c: nat, p: nat, e: Entry, acked: set<nat>)
    requires Spreads(n, x, c, e, acked) && p in Peers(n, c) && p !in acked
    ensures ReplicateRequest(x, p) == Carrying(e, c, x.commit)
  {
    assert [e][0..] == [e];
  }

  lemma SendsTo(rules: Rules, n: nat, r: iset<Cluster>, s: Cluster, c: nat, p: nat, req: AppendRequest)
    returns (s': Cluster)
    requires Closed(rules, n, r) && s in r && |s.nodes| == n && c < n && p < n && p != c
    requires s.nodes[c].role == Leader && req == ReplicateRequest(s.nodes[c], p)
    ensures s' in r && s'.nodes == s.nodes && Append(p, req) in s'.sent
  {
    s' := Take(rules, n, r, s, Replicate(c, p));
  }

  lemma Answers(rules: Rules, n: nat, r: iset<Cluster>, s: Cluster, p: nat, req: AppendRequest) returns (s': Cluster)
    requires Closed(rules, n, r) && s in r && |s.nodes| == n && p < n && Append(p, req) in s.sent
    ensures s' in r && |s'.nodes| == n && s'.nodes == s.nodes[p := HandleAppend(rules, s.nodes[p], req).0]
    ensures AnswerAppend(p, req, HandleAppend(rules, s.nodes[p], req).1) in s'.sent
  {
    s' := Take(rules, n, r, s, ReceiveAppend(p, req));
  }

  /** Leader c sends its entry to p, which answers. */
  lemma Sends(rules: Rules, n: nat, r: iset<Cluster>, s: Cluster, c: nat, p: nat, e: Entry, acked: set<nat>)
    returns (s': Cluster, resp: AppendResponse)
    requires Closed(rules, n, r) && s in r && |s.nodes| == n && c < n && p < n && p != c && p !in acked
    requires Spreads(n, s.nodes[c], c, e, acked) && Receptive(s.nodes[p], e)
    ensures s' in r && |s'.nodes| == n && s'.nodes == s.nodes[p := s'.nodes[p]] && Received(s.nodes[p], s'.nodes[p], e)
    ensures AnswerAppend(p, Carrying(e, c, s.nodes[c].commit), resp) in s'.sent && resp.success && resp.term == e.term
  {
    var req := Carrying(e, c, s.nodes[c].commit);
    RequestCarries(n, s.nodes[c], c, p, e, acked);
    var mid := SendsTo(rules, n, r, s, c, p, req);
    TakesOver(rules, s.nodes[p], e, c, s.nodes[c].commit);
    resp := HandleAppend(rules, s.nodes[p], req).1;
    s' := Answers(rules, n, r, mid, p, req);
  }

  /** ... and counts the answer. */
  lemma Replicated(rules: Rules, n: nat, r: iset<Cluster>, s: Cluster, c: nat, p: nat, e: Entry, acked: set<nat>)
    returns (s': Cluster)
    requires Closed(rules, n, r) && s in r && |s.nodes| == n && c < n && p < n && p != c && p !in acked
    requires Spreads(n, s.nodes[c], c, e, acked) && Receptive(s.nodes[p], e)
    ensures s' in r && |s'.nodes| == n && s'.nodes == s.nodes[p := s'.nodes[p]][c := s'.nodes[c]]
    ensures Received(s.nodes[p], s'.nodes[p], e) && Spreads(n, s'.nodes[c], c, e, acked + {p})
    ensures |acked| + 2 >= Majority(n) ==> s'.nodes[c].commit == 1
  {
    var mid, resp := Sends(rules, n, r, s, c, p, e, acked);
    Counts(n, s.nodes[c], c, p, e, s.nodes[c].commit, resp, acked);
    s' := Take(rules, n, r, mid, ReceiveAnswer(c, p, Carrying(e, c, s.nodes[c].commit), resp));
  }

  /** The servers 1 .. hi-1 have received the entry; the others have not moved. */
  ghost predicate Reached(n: nat, s: Cluster, s': Cluster, c: nat, e: Entry, hi: nat)
    requires |s.nodes| == n == |s'.nodes| && hi <= n
  {
    Elsewhere(n, s, s', c, 1, hi) && forall v :: 1 <= v < hi ==> Received(s.nodes[v], s'.nodes[v], e)
  }

  lemma ReachedOneMore(n: nat, s: Cluster, mid: Cluster, s': Cluster, c: nat, e: Entry, p: nat)
    requires |s.nodes| == |mid.nodes| == |s'.nodes| == n && c < n && 1 <= p < n && !(1 <= c <= p)
    requires Reached(n, s, mid, c, e, p) && s'.nodes == mid.nodes[p := s'.nodes[p]][c := s'.nodes[c]]
    requires Received(mid.nodes[p], s'.nodes[p], e)
    ensures Reached(n, s, s', c, e, p + 1)
  {}

  /** Leader c spreads its entry to the servers 1 .. hi-1, and commits it if they suffice. */
  lemma {:induction false} Spread(rules: Rules, n: nat, r: iset<Cluster>, s: Cluster, c: nat, e: Entry, hi: nat)
    returns (s': Cluster)
    requires Closed(rules, n, r) && s in r && |s.nodes| == n && c < n && 0 < hi <= n && !(1 <= c < hi)
    requires Spreads(n, s.nodes[c], c, e, {}) && forall v :: 1 <= v < hi ==> Receptive(s.nodes[v], e)
    ensures s' in r && |s'.nodes| == n && Reached(n, s, s', c, e, hi) && Spreads(n, s'.nodes[c], c, e, Range(1, hi))
    ensures 1 < hi && Majority(n) <= hi ==> s'.nodes[c].commit == 1
    decreases hi
  {
    if hi == 1 {
      s' := s;
    } else {
      var p := hi - 1;
      var mid := Spread(rules, n, r, s, c, e, p);
      assert mid.nodes[p] == s.nodes[p];
      s' := Replicated(rules, n, r, mid, c, p, e, Range(1, p));
      ReachedOneMore(n, s, mid, s', c, e, p);
      assert Range(1, hi) == Range(1, p) + {p};
    }
  }
}
