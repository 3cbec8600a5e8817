/** Exactly which clusters elect at most one leader per term, whatever happens. */
module RaftElectionLimits {
  import opened Wrappers
  import opened RaftTypes
  import opened RaftSteps
  import opened RaftCluster
  import opened RaftSafety
  import opened RaftRuns

  ghost predicate OneLeaderPerTerm(s: Cluster) {
    forall a, b :: 0 <= a < |s.nodes| && 0 <= b < |s.nodes| ==>
                     s.nodes[a].role == Leader == s.nodes[b].role && s.nodes[a].term == s.nodes[b].term ==> a == b
  }

  /** The first and the last server both lead term 1, and enough of the others to commit with have empty logs. */
  ghost predicate Rivals(n: nat, s: Cluster) {
    && 1 < n == |s.nodes| && Leading(n, s.nodes[0], 0, 1) && Leading(n, s.nodes[n - 1], n - 1, 1)
    && forall v :: 1 <= v < Majority(n) ==> s.nodes[v].log == [] && s.nodes[v].commit == 0 && s.nodes[v].term == 1
  }

  lemma RivalsSplit(n: nat, s: Cluster)
    requires Rivals(n, s)
    ensures !OneLeaderPerTerm(s)
  {
    assert s.nodes[0].role == Leader == s.nodes[n - 1].role && s.nodes[0].term == s.nodes[n - 1].term;
  }

  /** Two candidates of term 1 have asked everyone; all others are open. */
  lemma TwoCandidates(rules: Rules, n: nat, r: iset<Cluster>, c: nat) returns (s: Cluster)
    requires Closed(rules, n, r) && n > 0 && Init(n) in r && 0 < c < n
    ensures s in r && |s.nodes| == n && AskVote(Ask(0, 1)) in s.sent && AskVote(Ask(c, 1)) in s.sent
    ensures Running(s.nodes[0], 0, 1, {}) && Running(s.nodes[c], c, 1, {})
    ensures forall v :: 1 <= v < n && v != c ==> Open(s.nodes[v], 1)
  {
    s := Candidacy(rules, n, r, Init(n), 0);
    s := Candidacy(rules, n, r, s, c);
  }

  // ----- clusters of even size -----

  lemma EvenClusterSplits(rules: Rules, n: nat, r: iset<Cluster>) returns (s: Cluster)
    requires n % 2 == 0 && n > 2 && Closed(rules, n, r) && Init(n) in r
    ensures s in r && Rivals(n, s)
  {
    var h, c := n / 2, n - 1;
    assert n == 2 * h && Majority(n) == h;
    s := TwoCandidates(rules, n, r, c);
    s := Poll(rules, n, r, s, 0, 1, 1, h);
    s := Poll(rules, n, r, s, c, 1, h, c);
  }

  lemma PairSplits(rules: Rules, r: iset<Cluster>) returns (s: Cluster)
    requires Closed(rules, 2, r) && Init(2) in r
    ensures s in r && Rivals(2, s)
  {
    s := TwoCandidates(rules, 2, r, 1);
    s := AnyAnswerElects(rules, r, s, 0, 1);
    s := AnyAnswerElects(rules, r, s, 1, 1);
  }

  // ----- votes forgotten on a heartbeat -----

  lemma ForgetOne(rules: Rules, n: nat, r: iset<Cluster>, s: Cluster, v: nat) returns (s': Cluster)
    requires Closed(rules, n, r) && s in r && |s.nodes| == n && 0 < v < n && !rules.keepVote
    requires Leading(n, s.nodes[0], 0, 1) && Pledged(s.nodes[v], 0, 1)
    ensures s' in r && |s'.nodes| == n && s.sent <= s'.sent
    ensures Open(s'.nodes[v], 1) && forall u :: 0 <= u < n && u != v ==> s'.nodes[u] == s.nodes[u]
  {
    var req := HeartbeatRequest(s.nodes[0], v);
    s' := Take(rules, n, r, s, Heartbeat(0, v));
    assert s'.nodes == s.nodes && Append(v, req) in s'.sent;
    s' := Take(rules, n, r, s', ReceiveAppend(v, req));
  }

  lemma {:induction false} Forget(rules: Rules, n: nat, r: iset<Cluster>, s: Cluster, hi: nat) returns (s': Cluster)
    requires Closed(rules, n, r) && s in r && |s.nodes| == n && 0 < hi <= n && !rules.keepVote
    requires Leading(n, s.nodes[0], 0, 1) && forall v :: 1 <= v < hi ==> Pledged(s.nodes[v], 0, 1)
    ensures s' in r && |s'.nodes| == n && s.sent <= s'.sent
    ensures forall v :: 1 <= v < hi ==> Open(s'.nodes[v], 1)
    ensures forall u :: 0 <= u < n && !(1 <= u < hi) ==> s'.nodes[u] == s.nodes[u]
    decreases hi
  {
    s' := s;
    if hi > 1 {
      s' := Forget(rules, n, r, s, hi - 1);
      s' := ForgetOne(rules, n, r, s', hi - 1);
    }
  }

  lemma ForgottenVotesSplit(rules: Rules, n: nat, r: iset<Cluster>) returns (s: Cluster)
    requires n % 2 == 1 && n > 1 && !rules.keepVote && Closed(rules, n, r) && Init(n) in r
    ensures s in r && Rivals(n, s)
  {
    var h, c := n / 2, n - 1;
    assert n == 2 * h + 1 && Majority(n) == h + 1;
    s := TwoCandidates(rules, n, r, c);
    s := Poll(rules, n, r, s, 0, 1, 1, h + 1);
    s := Forget(rules, n, r, s, h + 1);
    s := Poll(rules, n, r, s, c, 1, 1, h + 1);
  }

  lemma SomeSplit(rules: Rules, n: nat, r: iset<Cluster>) returns (s: Cluster)
    requires n > 0 && !(n % 2 == 1 && (rules.keepVote || n == 1)) && Closed(rules, n, r) && Init(n) in r
    ensures s in r && Rivals(n, s)
  {
    if n == 2 {
      s := PairSplits(rules, r);
    } else if n % 2 == 0 {
      s := EvenClusterSplits(rules, n, r);
    } else {
      s := ForgottenVotesSplit(rules, n, r);
    }
  }

  lemma OneLeader(rules: Rules, n: nat, s: Cluster)
    requires n % 2 == 1 && (rules.keepVote || n == 1) && Reachable(rules, n, false, s)
    ensures OneLeaderPerTerm(s)
  {
    var ss: seq<Cluster>, acts: seq<Action> :| Run(rules, n, ss, acts) && ss[|acts|] == s;
    forall a, b | 0 <= a < n && 0 <= b < n && s.nodes[a].role == Leader == s.nodes[b].role
                  && s.nodes[a].term == s.nodes[b].term
      ensures a == b
    {
      if n > 1 { ElectionSafety(rules, n, ss, acts, |acts|, |acts|, a, b); }
    }
  }

  /** At most one leader per term in every reachable state, exactly when the cluster has odd size and
      its servers keep their votes (or there is just one server). */
  lemma OneLeaderPerTermExactly(rules: Rules, n: nat)
    requires n > 0
    ensures (forall s :: Reachable(rules, n, false, s) ==> OneLeaderPerTerm(s)) <==>
            n % 2 == 1 && (rules.keepVote || n == 1)
  {
    if n % 2 == 1 && (rules.keepVote || n == 1) {
      forall s | Reachable(rules, n, false, s) ensures OneLeaderPerTerm(s) {
        OneLeader(rules, n, s);
      }
    } else {
      var r := ReachableClosed(rules, n, false);
      var s := SomeSplit(rules, n, r);
      RivalsSplit(n, s);
    }
  }
}
