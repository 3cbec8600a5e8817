/** Exactly which clusters keep what they commit, with the rules as parameters, and what restarts do. */
module RaftCommitLimits {
  import opened Wrappers
  import opened RaftTypes
  import opened RaftSteps
  import opened RaftCluster
  import opened RaftSafety
  import opened RaftRuns
  import opened RaftElectionLimits
  import opened Numbers

  const FIRST := Entry(1, 1, "PUT", Operation("PUT", "k", "a"), 0)
  const RIVAL := Entry(1, 1, "PUT", Operation("PUT", "k", "b"), 0)
  const SECOND := Entry(1, 2, "PUT", Operation("PUT", "k", "b"), 0)

  function Committed(x: Node): Log {
    x.log[..Min(x.commit, |x.log|)]
  }

  /** Of what any two servers committed by any two moments, one is a prefix of the other. */
  ghost predicate CommitsAgree(n: nat, ss: seq<Cluster>)
    requires forall k :: 0 <= k < |ss| ==> |ss[k].nodes| == n
  {
    forall i: nat, j: nat, a: nat, b: nat {:trigger ss[i].nodes[a], ss[j].nodes[b]} ::
      i <= j < |ss| && a < n && b < n ==>
        var p, q := Committed(ss[i].nodes[a]), Committed(ss[j].nodes[b]); p <= q || q <= p
  }

  /** A leader has what servers of its own or earlier terms committed before. */
  ghost predicate LeadersComplete(n: nat, ss: seq<Cluster>)
    requires forall k :: 0 <= k < |ss| ==> |ss[k].nodes| == n
  {
    forall i: nat, j: nat, a: nat, b: nat {:trigger ss[i].nodes[a], ss[j].nodes[b]} ::
      i <= j < |ss| && a < n && b < n && ss[j].nodes[b].role == Leader && ss[i].nodes[a].term <= ss[j].nodes[b].term ==>
        Committed(ss[i].nodes[a]) <= ss[j].nodes[b].log
  }

  /** At this moment the first and the last server have committed different entries. */
  ghost predicate CommitsApart(n: nat, s: Cluster) {
    && 1 < n == |s.nodes| && s.nodes[0].commit == 1 == s.nodes[n - 1].commit
    && |s.nodes[0].log| == 1 == |s.nodes[n - 1].log| && s.nodes[0].log != s.nodes[n - 1].log
  }

  /** At this moment the last server leads without an entry that the first one has committed. */
  ghost predicate LeaderLacks(n: nat, s: Cluster) {
    && 1 < n == |s.nodes| && s.nodes[0].commit == 1 == |s.nodes[0].log|
    && s.nodes[n - 1].role == Leader && s.nodes[0].term <= s.nodes[n - 1].term
    && (s.nodes[n - 1].log == [] || s.nodes[n - 1].log[0] != s.nodes[0].log[0])
  }

  // ----- two leaders of one term -----

  /** Leader 0 tells server c, which has an entry of its own in the place, that this place is committed. */
  lemma AnnouncesCommit(rules: Rules, n: nat, r: iset<Cluster>, s: Cluster, c: nat, e: Entry, acked: set<nat>)
    returns (s': Cluster)
    requires Closed(rules, n, r) && s in r && |s.nodes| == n && 0 < c < n && c in acked
    requires Spreads(n, s.nodes[0], 0, e, acked) && s.nodes[0].commit == 1
    requires var v := s.nodes[c]; Receptive(v, e) && v.log != []
    ensures s' in r && |s'.nodes| == n && s'.nodes == s.nodes[c := s'.nodes[c]]
    ensures s'.nodes[c].log == s.nodes[c].log && s'.nodes[c].commit == 1
  {
    var req := AppendRequest(e.term, 0, 1, e.term, [], 1);
    assert ReplicateRequest(s.nodes[0], c) == req;
    s' := Take(rules, n, r, s, Replicate(0, c));
    assert s'.nodes == s.nodes && Append(c, req) in s'.sent;
    s' := Take(rules, n, r, s', ReceiveAppend(c, req));
  }

  /** Both leaders take an entry of their own. */
  ghost predicate RivalEntries(n: nat, s: Cluster) {
    && 1 < n == |s.nodes| && Spreads(n, s.nodes[0], 0, FIRST, {}) && Spreads(n, s.nodes[n - 1], n - 1, RIVAL, {})
    && forall v :: 1 <= v < Majority(n) ==> Receptive(s.nodes[v], FIRST)
  }

  lemma RivalsAppend(rules: Rules, n: nat, r: iset<Cluster>, s: Cluster) returns (s': Cluster)
    requires Closed(rules, n, r) && s in r && Rivals(n, s)
    ensures s' in r && RivalEntries(n, s')
  {
    s' := TakesCommand(rules, n, r, s, 0, FIRST);
    s' := TakesCommand(rules, n, r, s', n - 1, RIVAL);
  }

  /** Leader 0 commits its entry, and the rival acknowledges it with the entry it has in its place. */
  lemma RivalAcknowledges(rules: Rules, n: nat, r: iset<Cluster>, s: Cluster) returns (s': Cluster)
    requires Closed(rules, n, r) && s in r && RivalEntries(n, s)
    ensures var c, hi := n - 1, Majority(n);
            && s' in r && |s'.nodes| == n && Spreads(n, s'.nodes[0], 0, FIRST, Range(1, hi) + {c})
            && s'.nodes[0].commit == 1 && Receptive(s'.nodes[c], FIRST) && s'.nodes[c].log == [RIVAL]
  {
    var c, hi := n - 1, Majority(n);
    var mid := Spread(rules, n, r, s, 0, FIRST, hi);
    assert Receptive(mid.nodes[c], FIRST);
    s' := Replicated(rules, n, r, mid, 0, c, FIRST, Range(1, hi));
  }

  lemma RivalsCommit(rules: Rules, n: nat, r: iset<Cluster>, s: Cluster) returns (s': Cluster)
    requires Closed(rules, n, r) && s in r && RivalEntries(n, s)
    ensures s' in r && CommitsApart(n, s')
  {
    s' := RivalAcknowledges(rules, n, r, s);
    s' := AnnouncesCommit(rules, n, r, s', n - 1, FIRST, Range(1, Majority(n)) + {n - 1});
  }

  /** With two servers, the one that acknowledged with an entry of its own leads the next term. */
  lemma PairOverrules(rules: Rules, r: iset<Cluster>, s: Cluster) returns (s': Cluster)
    requires Closed(rules, 2, r) && s in r && |s.nodes| == 2
    requires var x := s.nodes[0]; x.term == 1 && x.log == [FIRST] && x.commit == 1
    requires var y := s.nodes[1]; y.id == 1 && y.role == Follower && y.term == 1 && y.log == [RIVAL]
    ensures s' in r && LeaderLacks(2, s')
  {
    var ask := VoteRequest(2, 1, 1, 1);
    s' := Take(rules, 2, r, s, Timeout(1));
    s' := Take(rules, 2, r, s', Campaign(1));
    assert AskVote(ask) in s'.sent;
    var answer := VoteResponse(2, true);
    assert HandleVoteRequest(s.nodes[0], ask) ==
           (s.nodes[0].(term := 2, role := Follower, votedFor := Some(1)), answer);
    s' := Take(rules, 2, r, s', ReceiveAskVote(0, ask));
    assert AnswerVote(2, 1, 0, answer) in s'.sent;
    s' := Take(rules, 2, r, s', ReceiveVote(1, 2, 0, answer));
  }

  lemma RivalsLack(rules: Rules, n: nat, r: iset<Cluster>, s: Cluster) returns (s': Cluster)
    requires Closed(rules, n, r) && s in r && RivalEntries(n, s)
    ensures s' in r && LeaderLacks(n, s')
  {
    s' := Spread(rules, n, r, s, 0, FIRST, Majority(n));
    if n == 2 {
      s' := Replicated(rules, n, r, s', 0, 1, FIRST, Range(1, 1));
      s' := PairOverrules(rules, r, s');
    }
  }

  // ----- a heartbeat that announces too much -----

  lemma CommitsUnvouched(rules: Rules, x: Node, c: nat)
    requires !rules.capCommit && x.log == [FIRST] && x.commit == 0 && x.term == 1
    ensures var y := HandleAppend(rules, x, AppendRequest(2, c, 0, 0, [], 1)).0;
            y.commit == 1 && y.log == [FIRST] && y.term == 2
  {}

  /** Server 0 leads term 1 with an entry it never sent; server n-1 has reached that term by itself. */
  ghost predicate Unsent(n: nat, s: Cluster) {
    && 2 < n == |s.nodes| && s.nodes[0].log == [FIRST] && s.nodes[0].commit == 0 && s.nodes[0].term == 1
    && (var y := s.nodes[n - 1]; y.id == n - 1 && y.role != Leader && y.log == [] && y.commit == 0 && y.term == 1)
    && forall v :: 1 <= v < Majority(n) ==> Pledged(s.nodes[v], 0, 1) && s.nodes[v].id == v
  }

  lemma KeepsUnsent(rules: Rules, n: nat, r: iset<Cluster>) returns (s: Cluster)
    requires n > 2 && Closed(rules, n, r) && Init(n) in r
    ensures s in r && Unsent(n, s)
  {
    s := Elect(rules, n, r, Init(n), 0, Majority(n));
    s := TakesCommand(rules, n, r, s, 0, FIRST);
    s := Take(rules, n, r, s, Timeout(n - 1));
  }

  /** Server n-1 leads term 2 and commits another entry, without server 0. */
  lemma Overtakes(rules: Rules, n: nat, r: iset<Cluster>, s: Cluster) returns (s': Cluster)
    requires Closed(rules, n, r) && s in r && Unsent(n, s)
    ensures s' in r && |s'.nodes| == n && s'.nodes[0] == s.nodes[0] && s'.nodes[n - 1].commit == 1
    ensures Spreads(n, s'.nodes[n - 1], n - 1, SECOND, Range(1, Majority(n)))
  {
    s' := Elect(rules, n, r, s, n - 1, Majority(n));
    s' := TakesCommand(rules, n, r, s', n - 1, SECOND);
    s' := Spread(rules, n, r, s', n - 1, SECOND, Majority(n));
  }

  /** Server 0 keeps an entry it never sent; the leader of term 2 commits another and then sends a heartbeat. */
  lemma HeartbeatSplits(rules: Rules, n: nat, r: iset<Cluster>) returns (s: Cluster)
    requires !rules.capCommit && n > 2 && Closed(rules, n, r) && Init(n) in r
    ensures s in r && CommitsApart(n, s) && LeaderLacks(n, s)
  {
    var c := n - 1;
    s := KeepsUnsent(rules, n, r);
    s := Overtakes(rules, n, r, s);
    var beat := AppendRequest(2, c, 0, 0, [], 1);
    assert HeartbeatRequest(s.nodes[c], 0) == beat;
    s := Take(rules, n, r, s, Heartbeat(c, 0));
    assert Append(0, beat) in s.sent;
    CommitsUnvouched(rules, s.nodes[0], c);
    s := Take(rules, n, r, s, ReceiveAppend(0, beat));
  }

  // ----- restarts without the log -----

  lemma {:induction false} RestartAll(rules: Rules, n: nat, r: iset<Cluster>, s: Cluster, hi: nat) returns (s': Cluster)
    requires Restartable(rules, n, r) && s in r && |s.nodes| == n && 0 < hi <= n
    ensures s' in r && |s'.nodes| == n && Elsewhere(n, s, s', 0, 1, hi) && s'.nodes[0] == s.nodes[0]
    ensures forall v :: 1 <= v < hi ==> s'.nodes[v] == Restart(s.nodes[v])
    decreases hi
  {
    s' := s;
    if hi > 1 {
      s' := RestartAll(rules, n, r, s, hi - 1);
      s' := TakeRestart(rules, n, r, s', hi - 1);
    }
  }

  /** Server 0 leads term 1, elected by the servers 1 .. hi-1, and has an entry; nobody else has moved. */
  ghost predicate FirstLeads(n: nat, s: Cluster, hi: nat) {
    && 0 < hi <= n == |s.nodes| && Spreads(n, s.nodes[0], 0, FIRST, {})
    && (forall v :: 1 <= v < hi ==> Pledged(s.nodes[v], 0, 1) && s.nodes[v].id == v)
    && forall v :: hi <= v < n ==> s.nodes[v] == Init(n).nodes[v]
  }

  lemma LeadsFirst(rules: Rules, n: nat, r: iset<Cluster>, hi: nat) returns (s: Cluster)
    requires Closed(rules, n, r) && Init(n) in r && 1 < hi <= n && Majority(n) <= hi && (hi == 2 || hi == Majority(n))
    ensures s in r && FirstLeads(n, s, hi)
  {
    s := Elect(rules, n, r, Init(n), 0, hi);
    s := TakesCommand(rules, n, r, s, 0, FIRST);
  }

  /** Server 0 commits the entry with the servers 1 .. hi-1. */
  lemma FirstCommits(rules: Rules, n: nat, r: iset<Cluster>, s: Cluster, hi: nat) returns (s': Cluster)
    requires Closed(rules, n, r) && s in r && FirstLeads(n, s, hi) && 1 < hi && Majority(n) <= hi
    ensures s' in r && |s'.nodes| == n && Spreads(n, s'.nodes[0], 0, FIRST, Range(1, hi)) && s'.nodes[0].commit == 1
    ensures forall v :: 1 <= v < hi ==> Quiet(s'.nodes[v], v)
    ensures forall v :: hi <= v < n ==> s'.nodes[v] == Init(n).nodes[v]
  {
    forall v | 1 <= v < hi ensures Receptive(s.nodes[v], FIRST) {}
    s' := Spread(rules, n, r, s, 0, FIRST, hi);
    forall v | 1 <= v < hi ensures Quiet(s'.nodes[v], v) {
      assert Received(s.nodes[v], s'.nodes[v], FIRST);
    }
  }

  predicate Quiet(x: Node, v: nat) {
    x.id == v && x.role == Follower && x.term == 1
  }

  /** Server 0 has committed an entry that the servers 1 .. hi-1 have forgotten and the others never had. */
  ghost predicate Forgotten(n: nat, s: Cluster, hi: nat) {
    && 1 < hi <= n == |s.nodes| && s.nodes[0].commit == 1 && s.nodes[0].log == [FIRST] && s.nodes[0].term == 1
    && (forall v :: 1 <= v < hi ==> Open(s.nodes[v], 2) && Quiet(s.nodes[v], v))
    && forall v :: hi <= v < n ==> s.nodes[v] == Init(n).nodes[v]
  }

  lemma RestartsForget(rules: Rules, n: nat, r: iset<Cluster>, hi: nat) returns (s: Cluster)
    requires Closed(rules, n, r) && Restartable(rules, n, r) && Init(n) in r
    requires 1 < hi <= n && Majority(n) <= hi && (hi == 2 || hi == Majority(n))
    ensures s in r && Forgotten(n, s, hi)
  {
    s := LeadsFirst(rules, n, r, hi);
    s := FirstCommits(rules, n, r, s, hi);
    s := RestartAll(rules, n, r, s, hi);
  }

  lemma PairForgets(rules: Rules, r: iset<Cluster>, s: Cluster) returns (s': Cluster)
    requires Closed(rules, 2, r) && s in r && Forgotten(2, s, 2)
    ensures s' in r && LeaderLacks(2, s')
  {
    var mid := Candidacy(rules, 2, r, s, 1);
    s' := AnyAnswerElects(rules, r, mid, 1, 2);
    assert s'.nodes[0].log == s.nodes[0].log;
  }

  /** Server n-1 leads term 2 with nothing in its log, elected by the servers that forgot. */
  ghost predicate Forgetful(n: nat, s: Cluster) {
    && 2 < n == |s.nodes| && s.nodes[0].commit == 1 && s.nodes[0].log == [FIRST] && s.nodes[0].term == 1
    && Leading(n, s.nodes[n - 1], n - 1, 2) && forall v :: 1 <= v < Majority(n) ==> Pledged(s.nodes[v], n - 1, 2)
  }

  lemma MajorityForgets(rules: Rules, n: nat, r: iset<Cluster>, s: Cluster) returns (s': Cluster)
    requires n > 2 && Closed(rules, n, r) && s in r && Forgotten(n, s, Majority(n))
    ensures s' in r && Forgetful(n, s')
  {
    var mid := Take(rules, n, r, s, Timeout(n - 1));
    assert forall v :: 0 <= v < n - 1 ==> mid.nodes[v] == s.nodes[v];
    s' := Elect(rules, n, r, mid, n - 1, Majority(n));
  }

  /** ... and commits another entry in the place. */
  lemma ForgetfulCommits(rules: Rules, n: nat, r: iset<Cluster>, s: Cluster) returns (s': Cluster)
    requires Closed(rules, n, r) && s in r && Forgetful(n, s)
    ensures s' in r && CommitsApart(n, s')
  {
    var mid := TakesCommand(rules, n, r, s, n - 1, SECOND);
    forall v | 1 <= v < Majority(n) ensures Receptive(mid.nodes[v], SECOND) {
      assert Pledged(s.nodes[v], n - 1, 2);
    }
    s' := Spread(rules, n, r, mid, n - 1, SECOND, Majority(n));
    assert s'.nodes[0] == s.nodes[0];
  }

  /** The servers that acknowledged the entry restart and elect one that never had it. */
  lemma RestartSplits(rules: Rules, n: nat, r: iset<Cluster>) returns (s: Cluster)
    requires n > 1 && Closed(rules, n, r) && Restartable(rules, n, r) && Init(n) in r
    ensures s in r && LeaderLacks(n, s)
  {
    s := RestartsForget(rules, n, r, if n == 2 then 2 else Majority(n));
    if n == 2 {
      s := PairForgets(rules, r, s);
    } else {
      s := MajorityForgets(rules, n, r, s);
    }
  }

  // ----- a single server -----

  /** A server alone is never answered, so it never leads and never commits. */
  ghost predicate Lonely(s: Cluster) {
    && |s.nodes| == 1 && s.nodes[0].role != Leader && s.nodes[0].log == [] && s.nodes[0].commit == 0
    && forall m :: m in s.sent ==> m.AskVote? && m.req.candidate == 0
  }

  lemma {:induction false} AloneForever(rules: Rules, ss: seq<Cluster>, acts: seq<Action>, k: nat)
    requires Run(rules, 1, ss, acts) && k < |ss|
    ensures Lonely(ss[k])
    decreases k
  {
    if k > 0 {
      AloneForever(rules, ss, acts, k - 1);
      AloneStep(rules, ss[k - 1], acts[k - 1]);
    }
  }

  lemma AloneStep(rules: Rules, s: Cluster, a: Action)
    requires Lonely(s) && Enabled(1, s, a)
    ensures Lonely(Next(rules, 1, s, a))
  {}

  // ----- exactly -----

  lemma ApartIsFailure(rules: Rules, n: nat, keep: bool, s: Cluster) returns (ss: seq<Cluster>, acts: seq<Action>)
    requires Reachable(rules, n, keep, s) && CommitsApart(n, s)
    ensures Run(rules, n, ss, acts) && (keep ==> KeepsLogs(ss, acts)) && !CommitsAgree(n, ss)
  {
    ss, acts :| Run(rules, n, ss, acts) && (keep ==> KeepsLogs(ss, acts)) && ss[|acts|] == s;
    var k := |acts|;
    var p, q := Committed(ss[k].nodes[0]), Committed(ss[k].nodes[n - 1]);
    assert p == s.nodes[0].log && q == s.nodes[n - 1].log;
  }

  lemma LackIsFailure(rules: Rules, n: nat, keep: bool, s: Cluster) returns (ss: seq<Cluster>, acts: seq<Action>)
    requires Reachable(rules, n, keep, s) && LeaderLacks(n, s)
    ensures Run(rules, n, ss, acts) && (keep ==> KeepsLogs(ss, acts)) && !LeadersComplete(n, ss)
  {
    ss, acts :| Run(rules, n, ss, acts) && (keep ==> KeepsLogs(ss, acts)) && ss[|acts|] == s;
    var k := |acts|;
    assert Committed(ss[k].nodes[0]) == s.nodes[0].log;
    assert ss[k].nodes[n - 1].role == Leader;
  }

  lemma SafeCommitsAgree(rules: Rules, n: nat, ss: seq<Cluster>, acts: seq<Action>)
    requires n == 1 || (n % 2 == 1 && rules.keepVote && rules.capCommit)
    requires Run(rules, n, ss, acts) && KeepsLogs(ss, acts)
    ensures CommitsAgree(n, ss)
  {
    forall i: nat, j: nat, a: nat, b: nat | i <= j < |ss| && a < n && b < n
      ensures var p, q := Committed(ss[i].nodes[a]), Committed(ss[j].nodes[b]); p <= q || q <= p
    {
      if n == 1 {
        AloneForever(rules, ss, acts, i);
      } else {
        CommitSafety(rules, n, ss, acts, i, j, a, b);
      }
    }
  }

  /** Over runs whose restarts lose no log, all that is ever committed agrees, exactly when the cluster has odd size and
      both rules are the intended ones (or there is just one server). */
  lemma CommitSafetyExactly(rules: Rules, n: nat)
    requires n > 0
    ensures (forall ss: seq<Cluster>, acts: seq<Action> ::
               Run(rules, n, ss, acts) && KeepsLogs(ss, acts) ==> CommitsAgree(n, ss)) <==>
            n == 1 || (n % 2 == 1 && rules.keepVote && rules.capCommit)
  {
    if n == 1 || (n % 2 == 1 && rules.keepVote && rules.capCommit) {
      forall ss: seq<Cluster>, acts: seq<Action> | Run(rules, n, ss, acts) && KeepsLogs(ss, acts)
        ensures CommitsAgree(n, ss)
      {
        SafeCommitsAgree(rules, n, ss, acts);
      }
    } else {
      var r := ReachableClosed(rules, n, true);
      var s: Cluster;
      if n % 2 == 0 || !rules.keepVote {
        s := SomeSplit(rules, n, r);
        s := RivalsAppend(rules, n, r, s);
        s := RivalsCommit(rules, n, r, s);
      } else {
        s := HeartbeatSplits(rules, n, r);
      }
      var ss, acts := ApartIsFailure(rules, n, true, s);
    }
  }

  lemma AloneAgrees(rules: Rules, ss: seq<Cluster>, acts: seq<Action>)
    requires Run(rules, 1, ss, acts)
    ensures CommitsAgree(1, ss)
  {
    forall i: nat, j: nat, a: nat, b: nat | i <= j < |ss| && a < 1 && b < 1
      ensures var p, q := Committed(ss[i].nodes[a]), Committed(ss[j].nodes[b]); p <= q || q <= p
    {
      AloneForever(rules, ss, acts, i);
    }
  }

  /** With restarts that lose the log, all that is ever committed agrees exactly when there is just one server, whatever
      the rules. */
  lemma CommitSafetyAnyRestartsExactly(rules: Rules, n: nat)
    requires n > 0
    ensures (forall ss: seq<Cluster>, acts: seq<Action> :: Run(rules, n, ss, acts) ==> CommitsAgree(n, ss)) <==> n == 1
  {
    if n == 1 {
      forall ss: seq<Cluster>, acts: seq<Action> | Run(rules, n, ss, acts) ensures CommitsAgree(n, ss) {
        AloneAgrees(rules, ss, acts);
      }
    } else if n == 2 {
      CommitSafetyExactly(rules, n);
    } else {
      var r := ReachableClosed(rules, n, false);
      var s := RestartsForget(rules, n, r, Majority(n));
      s := MajorityForgets(rules, n, r, s);
      s := ForgetfulCommits(rules, n, r, s);
      var ss, acts := ApartIsFailure(rules, n, false, s);
    }
  }

  lemma AloneComplete(rules: Rules, ss: seq<Cluster>, acts: seq<Action>)
    requires Run(rules, 1, ss, acts)
    ensures LeadersComplete(1, ss)
  {
    forall i: nat, j: nat, a: nat, b: nat | i <= j < |ss| && a < 1 && b < 1
      ensures Committed(ss[i].nodes[a]) <= ss[j].nodes[b].log
    {
      AloneForever(rules, ss, acts, i);
    }
  }

  lemma SafeLeadersComplete(rules: Rules, n: nat, ss: seq<Cluster>, acts: seq<Action>)
    requires n % 2 == 1 && rules.keepVote && rules.capCommit && Run(rules, n, ss, acts) && KeepsLogs(ss, acts)
    ensures LeadersComplete(n, ss)
  {
    forall i: nat, j: nat, a: nat, b: nat
      | i <= j < |ss| && a < n && b < n && ss[j].nodes[b].role == Leader && ss[i].nodes[a].term <= ss[j].nodes[b].term
      ensures Committed(ss[i].nodes[a]) <= ss[j].nodes[b].log
    {
      LeaderCompleteness(rules, n, ss, acts, i, j, a, b);
    }
  }

  /** Over runs whose restarts lose no log, every leader has what was committed before, under exactly the same
      condition. */
  lemma LeaderCompletenessKeepingLogsExactly(rules: Rules, n: nat)
    requires n > 0
    ensures (forall ss: seq<Cluster>, acts: seq<Action> ::
               Run(rules, n, ss, acts) && KeepsLogs(ss, acts) ==> LeadersComplete(n, ss)) <==>
            n == 1 || (n % 2 == 1 && rules.keepVote && rules.capCommit)
  {
    if n == 1 || (n % 2 == 1 && rules.keepVote && rules.capCommit) {
      forall ss: seq<Cluster>, acts: seq<Action> | Run(rules, n, ss, acts) && KeepsLogs(ss, acts)
        ensures LeadersComplete(n, ss)
      {
        if n == 1 { AloneComplete(rules, ss, acts); } else { SafeLeadersComplete(rules, n, ss, acts); }
      }
    } else {
      var r := ReachableClosed(rules, n, true);
      var s: Cluster;
      if n % 2 == 0 || !rules.keepVote {
        s := SomeSplit(rules, n, r);
        s := RivalsAppend(rules, n, r, s);
        s := RivalsLack(rules, n, r, s);
      } else {
        s := HeartbeatSplits(rules, n, r);
      }
      var ss, acts := LackIsFailure(rules, n, true, s);
    }
  }

  /** With restarts that lose the log, every leader has what was committed before exactly when there is just one server,
      whatever the rules. */
  lemma LeaderCompletenessExactly(rules: Rules, n: nat)
    requires n > 0
    ensures (forall ss: seq<Cluster>, acts: seq<Action> :: Run(rules, n, ss, acts) ==> LeadersComplete(n, ss)) <==>
            n == 1
  {
    if n == 1 {
      forall ss: seq<Cluster>, acts: seq<Action> | Run(rules, n, ss, acts) ensures LeadersComplete(n, ss) {
        AloneComplete(rules, ss, acts);
      }
    } else {
      var r := ReachableClosed(rules, n, false);
      var s := RestartSplits(rules, n, r);
      var ss, acts := LackIsFailure(rules, n, false, s);
    }
  }
}
