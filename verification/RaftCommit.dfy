/** State machine safety: committed entries are final, and all servers apply the same ones. */
module RaftCommit {
  import opened RaftTypes
  import opened RaftSteps
  import opened RaftMerge
  import opened RaftCluster
  import opened RaftElection
  import opened RaftLogs
  import opened RaftCompleteness
  import opened Sets
  import opened Numbers

  /** The log is a prefix of what was committed in some term up to `until`. */
  ghost predicate Final(n: nat, s: Cluster, p: Log, until: nat)
    requires n > 0
  {
    p == [] || exists t: nat, k: nat :: t <= until && Committed(n, s, t, k) && p <= s.reigns[t].log[..k]
  }

  ghost predicate CommitsFinal(n: nat, s: Cluster)
    requires |s.nodes| == n > 0
  {
    forall i :: 0 <= i < n ==>
                  && s.nodes[i].commit <= |s.nodes[i].log|
                  && Final(n, s, s.nodes[i].log[..s.nodes[i].commit], s.nodes[i].term)
  }

  ghost predicate RequestFinal(n: nat, s: Cluster, req: AppendRequest)
    requires n > 0
  {
    && req.term in s.reigns && req.leaderCommit <= |s.reigns[req.term].log|
    && Final(n, s, s.reigns[req.term].log[..req.leaderCommit], req.term)
  }

  ghost predicate RequestsFinal(n: nat, s: Cluster)
    requires n > 0
  {
    forall m :: m in s.sent && m.Append? ==> RequestFinal(n, s, m.append)
  }

  ghost predicate AnswersConfirmed(n: nat, s: Cluster) {
    forall m :: m in s.sent && m.AnswerAppend? ==>
                  && m.from < n
                  && (m.answer.success ==>
                      m.append.prevIndex + |m.append.entries| <= Confirms(s, m.from, m.append.term))
  }

  ghost predicate MatchesConfirmed(n: nat, s: Cluster)
    requires |s.nodes| == n
  {
    forall i, p :: 0 <= i < n && p in s.nodes[i].matchIndex ==>
                     && p in Peers(n, i)
                     && (s.nodes[i].role == Leader ==> s.nodes[i].matchIndex[p] <= Confirms(s, p, s.nodes[i].term))
  }

  /** A server's store is the result of its log up to the last applied entry. */
  ghost predicate StoresSound(n: nat, s: Cluster)
    requires |s.nodes| == n
  {
    forall i :: 0 <= i < n ==> StoreSound(s.nodes[i])
  }

  /** The store is what the applied part of the log makes of an empty one. */
  ghost predicate StoreSound(x: Node) {
    x.applied <= x.commit <= |x.log| && x.store == ExecuteAll(x.log[..x.applied])
  }

  ghost predicate CommitInv(n: nat, s: Cluster)
    requires |s.nodes| == n > 0
  {
    CommitsFinal(n, s) && RequestsFinal(n, s) && AnswersConfirmed(n, s) && MatchesConfirmed(n, s) && StoresSound(n, s)
  }

  // ----- final logs -----

  lemma FinalPrefix(n: nat, s: Cluster, p: Log, q: Log, until: nat)
    requires n > 0 && Final(n, s, p, until) && q <= p
    ensures Final(n, s, q, until)
  {}

  lemma FinalStays(n: nat, s: Cluster, s': Cluster, p: Log, until: nat, until': nat)
    requires |s.nodes| == n == |s'.nodes| && n > 0 && Evolves(n, s, s') && Final(n, s, p, until) && until <= until'
    ensures Final(n, s', p, until')
  {
    if p != [] {
      var t: nat, k: nat :| t <= until && Committed(n, s, t, k) && p <= s.reigns[t].log[..k];
      CommittedStays(n, s, s', t, k);
    }
  }

  lemma FinalInLeader(n: nat, s: Cluster, p: Log, until: nat, u: nat)
    requires |s.nodes| == n && n % 2 == 1 && ReignsCarry(n, s) && Final(n, s, p, until) && u in s.reigns && until <= u
    ensures p <= s.reigns[u].log
  {
    if p != [] {
      var t: nat, k: nat :| t <= until && Committed(n, s, t, k) && p <= s.reigns[t].log[..k];
      LaterLeadersHold(n, s, t, k, u);
    }
  }

  /** Of two final logs, one continues the other. */
  lemma FinalsAgree(n: nat, s: Cluster, p: Log, q: Log, until: nat, until': nat)
    requires |s.nodes| == n && n % 2 == 1 && ReignsCarry(n, s) && Final(n, s, p, until) && Final(n, s, q, until')
    ensures p <= q || q <= p
  {
    if p != [] && q != [] {
      var t: nat, k: nat :| t <= until && Committed(n, s, t, k) && p <= s.reigns[t].log[..k];
      var u: nat, l: nat :| u <= until' && Committed(n, s, u, l) && q <= s.reigns[u].log[..l];
      if t <= u {
        LaterLeadersHold(n, s, t, k, u);
      } else {
        LaterLeadersHold(n, s, u, l, t);
      }
    }
  }

  // ----- the leader's commit index -----

  lemma {:induction false} CommitPointSound(n: nat, x: Node, k: nat)
    requires n > 0
    ensures var c := CommitPoint(n, x, k); c == x.commit || (x.commit < c <= k && CanCommit(n, x, c))
    ensures forall j :: CommitPoint(n, x, k) < j <= k && x.commit < j ==> !CanCommit(n, x, j)
  {
    if k > x.commit && !CanCommit(n, x, k) {
      CommitPointSound(n, x, k - 1);
    }
  }

  lemma LeaderCommitIsCommitted(n: nat, s: Cluster, x: Node, c: nat)
    requires |s.nodes| == n > 0 && x.id < n && x.term in s.reigns && s.reigns[x.term] == Reign(x.id, x.log)
    requires forall p :: p in x.matchIndex ==> p in Peers(n, x.id) && x.matchIndex[p] <= Confirms(s, p, x.term)
    requires CanCommit(n, x, c)
    ensures Committed(n, s, x.term, c)
  {
    SubsetSize(Acknowledged(x, c) + {x.id}, Holders(n, s, x.term, c));
  }

  // ----- the follower's commit index -----

  /** The request's commit index reaches past what the request vouches for only if the log does not. */
  predicate CommitVouched(x: Node, req: AppendRequest) {
    var reach := Max(x.commit, req.prevIndex + |req.entries|);
    req.leaderCommit <= reach || |Merge(x.log, req.prevIndex, req.entries)| <= reach
  }

  /** The written rule sets the commit index the intended rule sets exactly when it is vouched for. */
  lemma CommitRulesAgree(x: Node, req: AppendRequest)
    requires var y := Merge(x.log, req.prevIndex, req.entries);
             Indexed(y) && x.commit <= |y| && req.prevIndex + |req.entries| <= |y|
    ensures var y := Merge(x.log, req.prevIndex, req.entries);
            FollowerCommit(AS_WRITTEN, x.commit, y, req) == FollowerCommit(INTENDED, x.commit, y, req)
            <==> CommitVouched(x, req)
  {}

  ghost predicate CommitsVouched(s: Cluster, a: Action) {
    a.ReceiveAppend? && a.i < |s.nodes| ==> CommitVouched(s.nodes[a.i], a.req)
  }

  lemma FollowerCommitValue(rules: Rules, x: Node, req: AppendRequest)
    requires var y := Merge(x.log, req.prevIndex, req.entries);
             Indexed(y) && x.commit <= |y| && req.prevIndex + |req.entries| <= |y|
    requires rules.capCommit || CommitVouched(x, req)
    ensures var c := FollowerCommit(rules, x.commit, Merge(x.log, req.prevIndex, req.entries), req);
            c == x.commit || (x.commit < c == Min(req.leaderCommit, req.prevIndex + |req.entries|))
  {}

  lemma AdoptedLogFinal(n: nat, s: Cluster, x: Log, leader: Log, m: nat, commit: nat, commit': nat, leaderCommit: nat,
                        until: nat)
    requires n > 0 && m <= |leader| && commit <= |x| && x[..commit] <= leader && leaderCommit <= |leader|
    requires Final(n, s, x[..commit], until) && Final(n, s, leader[..leaderCommit], until)
    requires commit' == commit || commit < commit' == Min(leaderCommit, m)
    ensures var y := Adopt(x, leader[..m]); commit' <= |y| && x[..commit] <= y && Final(n, s, y[..commit'], until)
  {
    var y := Adopt(x, leader[..m]);
    AdoptKeeps(x, leader, x[..commit], m);
    if commit' == commit {
      assert y[..commit'] == x[..commit];
    } else {
      assert y[..commit'] == leader[..commit'];
      FinalPrefix(n, s, leader[..leaderCommit], leader[..commit'], until);
    }
  }

  lemma AcceptingNode(rules: Rules, x: Node, req: AppendRequest, leader: Log)
    requires Indexed(x.log) && Indexed(leader) && Agree(x.log, leader) && CutFrom(req, leader)
    requires HandleAppend(rules, x, req).1.success && (rules.capCommit || CommitVouched(x, req))
    requires x.commit <= |x.log| && x.log[..x.commit] <= leader
    ensures var y, m := HandleAppend(rules, x, req).0, req.prevIndex + |req.entries|;
            && y.term == req.term && y.log == Adopt(x.log, leader[..m])
            && (y.commit == x.commit || (x.commit < y.commit == Min(req.leaderCommit, m)))
  {
    MergeAdopts(x.log, leader, req);
    AdoptKeeps(x.log, leader, x.log[..x.commit], req.prevIndex + |req.entries|);
    FollowerCommitValue(rules, x, req);
  }

  lemma AcceptedFinal(n: nat, s: Cluster, x: Node, y: Node, leader: Log, m: nat, leaderCommit: nat)
    requires n > 0 && x.term <= y.term && m <= |leader| && leaderCommit <= |leader|
    requires x.commit <= |x.log| && x.log[..x.commit] <= leader && y.log == Adopt(x.log, leader[..m])
    requires Final(n, s, x.log[..x.commit], x.term) && Final(n, s, leader[..leaderCommit], y.term)
    requires y.commit == x.commit || x.commit < y.commit == Min(leaderCommit, m)
    ensures x.commit <= y.commit <= |y.log| && x.log[..x.commit] <= y.log && Final(n, s, y.log[..y.commit], y.term)
  {
    FinalLonger(n, s, x.log[..x.commit], x.term, y.term);
    AdoptedLogFinal(n, s, x.log, leader, m, x.commit, y.commit, leaderCommit, y.term);
  }

  /** What the receiver of a request has committed, and what the request announces, is final and in the leader's log. */
  ghost predicate Grounded(n: nat, s: Cluster, x: Node, req: AppendRequest, leader: Log)
    requires n > 0
  {
    && Indexed(x.log) && Indexed(leader) && Agree(x.log, leader) && CutFrom(req, leader)
    && x.commit <= |x.log| && x.log[..x.commit] <= leader && req.leaderCommit <= |leader|
    && Final(n, s, x.log[..x.commit], x.term) && Final(n, s, leader[..req.leaderCommit], req.term)
  }

  lemma ReceiverGrounded(n: nat, s: Cluster, i: nat, req: AppendRequest)
    requires |s.nodes| == n && i < n && LogsSound(n, s) && ReignLogsSound(s) && AppendSound(s.reigns, i, req)
    requires n % 2 == 1 && ReignsCarry(n, s) && CommitsFinal(n, s) && RequestFinal(n, s, req)
    requires s.nodes[i].term <= req.term
    ensures Grounded(n, s, s.nodes[i], req, s.reigns[req.term].log)
  {
    var x := s.nodes[i];
    CoherentAgree(s.reigns, x.log, s.reigns[req.term].log);
    FinalInLeader(n, s, x.log[..x.commit], x.term, req.term);
  }

  lemma GroundedCommits(rules: Rules, n: nat, s: Cluster, x: Node, req: AppendRequest, leader: Log, y: Node)
    requires n > 0 && Grounded(n, s, x, req, leader) && y == HandleAppend(rules, x, req).0 && x.term <= req.term
    requires HandleAppend(rules, x, req).1.success && (rules.capCommit || CommitVouched(x, req))
    ensures x.commit <= y.commit <= |y.log| && x.log[..x.commit] <= y.log && Final(n, s, y.log[..y.commit], y.term)
  {
    AcceptingNode(rules, x, req, leader);
    AcceptedFinal(n, s, x, y, leader, req.prevIndex + |req.entries|, req.leaderCommit);
  }

  /** Accepting entries keeps the committed prefix, and commits only what the leader vouched for. */
  lemma ReceiverCommits(rules: Rules, n: nat, s: Cluster, i: nat, req: AppendRequest, y: Node)
    requires |s.nodes| == n && i < n && LogsSound(n, s) && ReignLogsSound(s) && AppendSound(s.reigns, i, req)
    requires n % 2 == 1 && ReignsCarry(n, s) && CommitsFinal(n, s) && RequestFinal(n, s, req)
    requires HandleAppend(rules, s.nodes[i], req).1.success && (rules.capCommit || CommitVouched(s.nodes[i], req))
    requires y == HandleAppend(rules, s.nodes[i], req).0
    ensures var x := s.nodes[i];
            x.commit <= y.commit <= |y.log| && x.log[..x.commit] <= y.log && Final(n, s, y.log[..y.commit], y.term)
  {
    ReceiverGrounded(n, s, i, req);
    GroundedCommits(rules, n, s, s.nodes[i], req, s.reigns[req.term].log, y);
  }

  lemma FinalLonger(n: nat, s: Cluster, p: Log, until: nat, until': nat)
    requires n > 0 && Final(n, s, p, until) && until <= until'
    ensures Final(n, s, p, until')
  {
    if p != [] {
      var t: nat, k: nat :| t <= until && Committed(n, s, t, k) && p <= s.reigns[t].log[..k];
      assert t <= until' && Committed(n, s, t, k);
    }
  }

  // ----- one step of the cluster -----

  lemma AnswerMoves(n: nat, x: Node, peer: nat, req: AppendRequest, resp: AppendResponse)
    requires n > 0
    ensures var y := HandleAppendResponse(n, x, peer, req, resp);
            && y.log == x.log && y.term == x.term && y.role == x.role && y.id == x.id
            && y.applied == x.applied && y.store == x.store && x.commit <= y.commit
            && (|| y.matchIndex == x.matchIndex
                || (&& x.role == Leader && resp.success && resp.term == x.term
                    && y.matchIndex == x.matchIndex[peer := req.prevIndex + |req.entries|]))
            && (y.commit == x.commit || (x.role == Leader && CanCommit(n, y, y.commit)))
  {
    if x.role == Leader && resp.term == x.term && resp.success && req.entries != [] {
      var reached := req.prevIndex + |req.entries|;
      var z := x.(matchIndex := x.matchIndex[peer := reached], nextIndex := x.nextIndex[peer := reached + 1]);
      CommitPointSound(n, z, LastIndex(z.log));
      var y := HandleAppendResponse(n, x, peer, req, resp);
      assert Acknowledged(y, y.commit) == Acknowledged(z, y.commit);
    }
  }

  /** A leader commits only what a quorum has confirmed in its term. */
  lemma LeaderCommits(n: nat, s: Cluster, i: nat, peer: nat, req: AppendRequest, resp: AppendResponse)
    requires Shape(n, s) && i < n && LeadersReign(n, s) && AppendsSound(s) && AnswersConfirmed(n, s)
             && MatchesConfirmed(n, s)
    requires CommitsFinal(n, s) && req.leader == i && AnswerAppend(peer, req, resp) in s.sent
    ensures var x, y := s.nodes[i], HandleAppendResponse(n, s.nodes[i], peer, req, resp);
            && y.commit <= |y.log| && Final(n, s, y.log[..y.commit], y.term)
            && forall p :: p in y.matchIndex ==>
                             p in Peers(n, i) && (y.role == Leader ==> y.matchIndex[p] <= Confirms(s, p, y.term))
  {
    var x, y := s.nodes[i], HandleAppendResponse(n, s.nodes[i], peer, req, resp);
    AnswerMoves(n, x, peer, req, resp);
    assert Append(peer, req) in s.sent && AppendSound(s.reigns, peer, req);
    if y.commit != x.commit {
      LeaderCommitIsCommitted(n, s, y, y.commit);
      assert y.term <= y.term && Committed(n, s, y.term, y.commit);
    }
  }

  lemma NodeKeepsCommit(rules: Rules, n: nat, x: Node, a: Action)
    requires n > 0 && !a.ReceiveAppend? && !a.ReceiveAnswer? && !a.Crash?
    ensures var y := Moved(rules, n, x, a);
            y.commit == x.commit && x.log <= y.log && x.term <= y.term
                && (a.Apply? || (y.applied == x.applied && y.store == x.store))
  {}

  lemma ReceiverFinal(rules: Rules, n: nat, s: Cluster, i: nat, req: AppendRequest)
    requires |s.nodes| == n && i < n && LogsSound(n, s) && ReignLogsSound(s) && AppendSound(s.reigns, i, req)
             && n % 2 == 1
    requires ReignsCarry(n, s) && CommitsFinal(n, s) && RequestFinal(n, s, req)
    requires rules.capCommit || CommitVouched(s.nodes[i], req)
    ensures var x, y := s.nodes[i], HandleAppend(rules, s.nodes[i], req).0;
            x.commit <= y.commit <= |y.log| && x.log[..x.commit] <= y.log && Final(n, s, y.log[..y.commit], y.term)
  {
    var x, y := s.nodes[i], HandleAppend(rules, s.nodes[i], req).0;
    if HandleAppend(rules, x, req).1.success {
      ReceiverCommits(rules, n, s, i, req, y);
    } else {
      FinalLonger(n, s, x.log[..x.commit], x.term, y.term);
    }
  }

  lemma BystanderFinal(rules: Rules, n: nat, s: Cluster, a: Action)
    requires |s.nodes| == n && a.i < n && CommitsFinal(n, s) && !a.ReceiveAppend? && !a.ReceiveAnswer?
    ensures var y := Moved(rules, n, s.nodes[a.i], a); y.commit <= |y.log| && Final(n, s, y.log[..y.commit], y.term)
  {
    if !a.Crash? {
      var x, y := s.nodes[a.i], Moved(rules, n, s.nodes[a.i], a);
      NodeKeepsCommit(rules, n, x, a);
      assert y.log[..y.commit] == x.log[..x.commit];
      FinalLonger(n, s, x.log[..x.commit], x.term, y.term);
    }
  }

  /** Whatever the step, the acting server's committed entries are final. */
  lemma NodeCommitsFinal(rules: Rules, n: nat, s: Cluster, a: Action)
    requires Shape(n, s) && LeadersReign(n, s) && LogInv(n, s) && ReignsCarry(n, s) && CommitInv(n, s)
    requires Enabled(n, s, a) && n % 2 == 1 && (rules.capCommit || CommitsVouched(s, a))
    ensures var y := Moved(rules, n, s.nodes[a.i], a); y.commit <= |y.log| && Final(n, s, y.log[..y.commit], y.term)
  {
    if a.ReceiveAppend? {
      assert Append(a.i, a.req) in s.sent;
      ReceiverFinal(rules, n, s, a.i, a.req);
    } else if a.ReceiveAnswer? {
      LeaderCommits(n, s, a.i, a.peer, a.req, a.resp);
    } else {
      BystanderFinal(rules, n, s, a);
    }
  }

  lemma CommitsFinalKept(n: nat, s: Cluster, s': Cluster, i: nat)
    requires |s.nodes| == n == |s'.nodes| && n > 0 && i < n && Evolves(n, s, s') && CommitsFinal(n, s)
    requires s'.nodes == s.nodes[i := s'.nodes[i]]
    requires s'.nodes[i].commit <= |s'.nodes[i].log|
             && Final(n, s, s'.nodes[i].log[..s'.nodes[i].commit], s'.nodes[i].term)
    ensures CommitsFinal(n, s')
  {
    forall j | 0 <= j < n ensures Final(n, s', s'.nodes[j].log[..s'.nodes[j].commit], s'.nodes[j].term) {
      FinalStays(n, s, s', s'.nodes[j].log[..s'.nodes[j].commit], s'.nodes[j].term, s'.nodes[j].term);
    }
  }

  lemma RequestFinalStays(n: nat, s: Cluster, s': Cluster, req: AppendRequest)
    requires |s.nodes| == n == |s'.nodes| && n > 0 && Evolves(n, s, s') && RequestFinal(n, s, req)
    ensures RequestFinal(n, s', req)
  {
    assert s.reigns[req.term].log <= s'.reigns[req.term].log;
    assert s'.reigns[req.term].log[..req.leaderCommit] == s.reigns[req.term].log[..req.leaderCommit];
    FinalStays(n, s, s', s.reigns[req.term].log[..req.leaderCommit], req.term, req.term);
  }

  lemma NewRequestFinal(rules: Rules, n: nat, s: Cluster, a: Action, m: Message)
    requires Shape(n, s) && LeadersReign(n, s) && CommitsFinal(n, s) && Enabled(n, s, a)
    requires m in Outgoing(rules, s.nodes[a.i], a) && m.Append?
    ensures RequestFinal(n, s, m.append)
  {}

  lemma RequestsFinalKept(rules: Rules, n: nat, s: Cluster, a: Action)
    requires Shape(n, s) && LeadersReign(n, s) && CommitsFinal(n, s) && RequestsFinal(n, s) && Enabled(n, s, a)
    requires Evolves(n, s, Next(rules, n, s, a))
    ensures RequestsFinal(n, Next(rules, n, s, a))
  {
    var s' := Next(rules, n, s, a);
    forall m | m in s'.sent && m.Append? ensures RequestFinal(n, s', m.append) {
      if m !in s.sent { NewRequestFinal(rules, n, s, a, m); }
      RequestFinalStays(n, s, s', m.append);
    }
  }

  lemma NewAnswerConfirmed(rules: Rules, n: nat, s: Cluster, a: Action, m: Message)
    requires Shape(n, s) && Enabled(n, s, a) && m in Outgoing(rules, s.nodes[a.i], a) && m.AnswerAppend?
    requires AppendsSound(s) && LeadersReign(n, s)
    ensures m.from < n
    ensures m.answer.success ==>
              m.append.prevIndex + |m.append.entries| <= Confirms(Next(rules, n, s, a), m.from, m.append.term)
  {
    assert AppendSound(s.reigns, a.i, a.req);
  }

  lemma AnswersKept(rules: Rules, n: nat, s: Cluster, a: Action)
    requires Shape(n, s) && Enabled(n, s, a) && AppendsSound(s) && LeadersReign(n, s) && AnswersConfirmed(n, s)
    requires Evolves(n, s, Next(rules, n, s, a))
    ensures AnswersConfirmed(n, Next(rules, n, s, a))
  {
    var s' := Next(rules, n, s, a);
    forall m | m in s'.sent && m.AnswerAppend?
      ensures m.from < n && (m.answer.success ==>
              m.append.prevIndex + |m.append.entries| <= Confirms(s', m.from, m.append.term))
    {
      if m !in s.sent { NewAnswerConfirmed(rules, n, s, a, m); }
    }
  }

  ghost predicate MatchSound(n: nat, s: Cluster, i: nat, y: Node) {
    forall p :: p in y.matchIndex ==>
                  p in Peers(n, i) && (y.role == Leader ==> y.matchIndex[p] <= Confirms(s, p, y.term))
  }

  lemma NodeKeepsMatch(rules: Rules, n: nat, x: Node, a: Action)
    requires n > 0 && !a.ReceiveAnswer? && !a.ReceiveVote?
    ensures var y := Moved(rules, n, x, a);
            && (y.matchIndex == x.matchIndex || y.matchIndex == map[])
            && (y.role == Leader ==> x.role == Leader && x.term == y.term)
  {}

  lemma CountingKeepsMatch(n: nat, x: Node, asked: nat, voter: nat, resp: VoteResponse)
    requires n > 0 && x.matchIndex.Keys <= Peers(n, x.id)
    ensures var y := CountVote(n, x, asked, voter, resp);
            || (y.matchIndex == x.matchIndex && (y.role == Leader ==> x.role == Leader && x.term == y.term))
            || (y.matchIndex.Keys <= Peers(n, x.id) && forall p :: p in y.matchIndex ==> y.matchIndex[p] == 0)
  {}

  lemma MatchesKept(n: nat, s: Cluster, s': Cluster, i: nat)
    requires |s.nodes| == n == |s'.nodes| && i < n && MatchesConfirmed(n, s) && Evolves(n, s, s')
    requires s'.nodes == s.nodes[i := s'.nodes[i]] && MatchSound(n, s, i, s'.nodes[i])
    ensures MatchesConfirmed(n, s')
  {}

  lemma MatchesStep(rules: Rules, n: nat, s: Cluster, a: Action)
    requires Shape(n, s) && Enabled(n, s, a) && LeadersReign(n, s) && AppendsSound(s)
    requires AnswersConfirmed(n, s) && MatchesConfirmed(n, s) && CommitsFinal(n, s)
    ensures MatchSound(n, s, a.i, Moved(rules, n, s.nodes[a.i], a))
  {
    if a.ReceiveAnswer? {
      LeaderCommits(n, s, a.i, a.peer, a.req, a.resp);
    } else if a.ReceiveVote? {
      CountingKeepsMatch(n, s.nodes[a.i], a.asked, a.voter, a.vote);
    } else {
      NodeKeepsMatch(rules, n, s.nodes[a.i], a);
    }
  }

  lemma StoreAfter(log: Log, k: nat)
    requires k < |log|
    ensures ExecuteAll(log[..k + 1]) == Execute(ExecuteAll(log[..k]), log[k])
  {
    assert log[..k + 1][..k] == log[..k];
  }

  lemma NodeKeepsStore(rules: Rules, n: nat, x: Node, a: Action)
    requires n > 0 && StoreSound(x)
    requires var y := Moved(rules, n, x, a); a.ReceiveAppend? ==> x.commit <= y.commit && x.log[..x.commit] <= y.log
    ensures var y := Moved(rules, n, x, a); y.commit <= |y.log| ==> StoreSound(y)
  {
    var y := Moved(rules, n, x, a);
    if a.ReceiveAppend? {
      assert y.log[..x.applied] == x.log[..x.commit][..x.applied] == x.log[..x.applied];
    } else if a.ReceiveAnswer? {
      AnswerMoves(n, x, a.peer, a.req, a.resp);
    } else if a.Apply? {
      if x.applied < x.commit { StoreAfter(x.log, x.applied); }
    } else if !a.Crash? {
      NodeKeepsCommit(rules, n, x, a);
      assert y.log[..y.applied] == x.log[..x.applied];
    }
  }

  lemma CommittedEntriesStay(rules: Rules, n: nat, s: Cluster, a: Action)
    requires |s.nodes| == n > 0 && LogInv(n, s) && ReignsCarry(n, s) && CommitsFinal(n, s) && RequestsFinal(n, s)
    requires Enabled(n, s, a) && n % 2 == 1 && (rules.capCommit || CommitsVouched(s, a)) && a.ReceiveAppend?
    ensures var x, y := s.nodes[a.i], Moved(rules, n, s.nodes[a.i], a);
            x.commit <= |x.log| && x.commit <= y.commit && x.log[..x.commit] <= y.log
  {
    assert Append(a.i, a.req) in s.sent;
    ReceiverFinal(rules, n, s, a.i, a.req);
  }

  lemma StoresMoved(n: nat, s: Cluster, s': Cluster, i: nat)
    requires |s.nodes| == n == |s'.nodes| && i < n && StoresSound(n, s)
    requires s'.nodes == s.nodes[i := s'.nodes[i]] && StoreSound(s'.nodes[i])
    ensures StoresSound(n, s')
  {}

  lemma StoresKept(rules: Rules, n: nat, s: Cluster, a: Action)
    requires |s.nodes| == n > 0 && StoresSound(n, s) && Enabled(n, s, a)
    requires var x, y := s.nodes[a.i], Moved(rules, n, s.nodes[a.i], a);
             y.commit <= |y.log| && (a.ReceiveAppend? ==> x.commit <= y.commit && x.log[..x.commit] <= y.log)
    ensures StoresSound(n, Next(rules, n, s, a))
  {
    NodeKeepsStore(rules, n, s.nodes[a.i], a);
    StoresMoved(n, s, Next(rules, n, s, a), a.i);
  }

  /** One step keeps the whole safety invariant. */
  lemma CommitKept(rules: Rules, n: nat, s: Cluster, a: Action)
    requires ElectionInv(rules, n, s) && LogInv(n, s) && CompletenessInv(n, s) && CommitInv(n, s)
    requires Enabled(n, s, a) && n % 2 == 1 && LosesNoLog(s, a)
    requires (rules.keepVote || VotesAfresh(s, a)) && (rules.capCommit || CommitsVouched(s, a))
    ensures var s' := Next(rules, n, s, a);
            ElectionInv(rules, n, s') && LogInv(n, s') && CompletenessInv(n, s') && CommitInv(n, s')
                && Evolves(n, s, s')
  {
    CompletenessKept(rules, n, s, a);
    NodeCommitsFinal(rules, n, s, a);
    CommitsFinalKept(n, s, Next(rules, n, s, a), a.i);
    RequestsFinalKept(rules, n, s, a);
    AnswersKept(rules, n, s, a);
    MatchesStep(rules, n, s, a);
    MatchesKept(n, s, Next(rules, n, s, a), a.i);
    if a.ReceiveAppend? { CommittedEntriesStay(rules, n, s, a); }
    StoresKept(rules, n, s, a);
  }
}
