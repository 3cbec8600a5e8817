/** Log matching: every prefix of every log is a prefix of the log its last term's leader had. */
module RaftLogs {
  import opened RaftTypes
  import opened RaftSteps
  import opened RaftMerge
  import opened RaftCluster
  import opened RaftElection

  ghost predicate Coherent(reigns: map<nat, Reign>, x: Log) {
    forall k :: 0 <= k < |x| ==>
                  x[k].index == k + 1 && x[k].term in reigns && x[..k + 1] <= reigns[x[k].term].log
  }

  ghost predicate LogsSound(n: nat, s: Cluster)
    requires |s.nodes| == n
  {
    forall i :: 0 <= i < n ==>
                  && Coherent(s.reigns, s.nodes[i].log)
                  && forall k :: 0 <= k < |s.nodes[i].log| ==> s.nodes[i].log[k].term <= s.nodes[i].term
  }

  ghost predicate ReignLogsSound(s: Cluster) {
    forall t :: t in s.reigns ==>
                  && Coherent(s.reigns, s.reigns[t].log)
                  && forall k :: 0 <= k < |s.reigns[t].log| ==> s.reigns[t].log[k].term <= t
  }

  /** An append request was cut from the log of its term's leader and goes to another server. */
  ghost predicate AppendSound(reigns: map<nat, Reign>, to: nat, req: AppendRequest) {
    req.term in reigns && req.leader == reigns[req.term].leader != to && CutFrom(req, reigns[req.term].log)
  }

  ghost predicate AppendsSound(s: Cluster) {
    && (forall m :: m in s.sent && m.Append? ==> AppendSound(s.reigns, m.to, m.append))
    && (forall m :: m in s.sent && m.AnswerAppend? ==>
                      && Append(m.from, m.append) in s.sent
                      && (m.answer.success ==> m.answer.term == m.append.term))
  }

  ghost predicate NextIndexSound(n: nat, s: Cluster)
    requires |s.nodes| == n
  {
    forall i, p :: 0 <= i < n && s.nodes[i].role == Leader && p in Peers(n, i) ==>
                     Lookup(s.nodes[i].nextIndex, p) <= |s.nodes[i].log| + 1
  }

  ghost predicate LogInv(n: nat, s: Cluster)
    requires |s.nodes| == n
  {
    LogsSound(n, s) && ReignLogsSound(s) && AppendsSound(s) && NextIndexSound(n, s)
  }

  /** Reigns keep their leader, and their logs only get longer. */
  ghost predicate ReignsGrow(r: map<nat, Reign>, r': map<nat, Reign>) {
    forall t :: t in r ==> t in r' && r'[t].leader == r[t].leader && r[t].log <= r'[t].log
  }

  lemma CoherentGrows(r: map<nat, Reign>, r': map<nat, Reign>, x: Log)
    requires Coherent(r, x) && ReignsGrow(r, r')
    ensures Coherent(r', x)
  {}

  lemma CoherentPrefix(r: map<nat, Reign>, x: Log, m: nat)
    requires Coherent(r, x) && m <= |x|
    ensures Coherent(r, x[..m])
  {
    forall k | 0 <= k < m ensures x[..m][..k + 1] <= r[x[k].term].log {
      assert x[..m][..k + 1] == x[..k + 1];
    }
  }

  /** Log matching for any two coherent logs. */
  lemma CoherentAgree(r: map<nat, Reign>, x: Log, y: Log)
    requires Coherent(r, x) && Coherent(r, y)
    ensures Agree(x, y)
  {}

  /** How one step may change a server's log. */
  ghost predicate LogMove(s: Cluster, s': Cluster, i: nat)
    requires i < |s.nodes| == |s'.nodes|
  {
    s'.nodes == s.nodes[i := s'.nodes[i]] && LogStep(s.reigns, s.nodes[i], s'.nodes[i])
  }

  /** A log stays, is lost, grows by a leader's new entry, or becomes the start of a leader's log. */
  ghost predicate LogStep(reigns: map<nat, Reign>, x: Node, y: Node) {
    && x.term <= y.term
    && (|| y.log == x.log
        || (y.log == [] && y.role == Follower)
        || (&& x.role == Leader == y.role && y.term == x.term && |y.log| == |x.log| + 1 && x.log <= y.log
            && y.log[|x.log|].term == x.term && y.log[|x.log|].index == LastIndex(x.log) + 1)
        || (y.term in reigns && y.role == Follower && Starts(y.log, reigns[y.term].log)))
  }

  ghost predicate Starts(x: Log, leader: Log) {
    exists m :: 0 <= m <= |leader| && x == leader[..m]
  }

  lemma NodeAdopts(rules: Rules, x: Node, req: AppendRequest, leader: Log)
    requires Indexed(x.log) && Agree(x.log, leader) && CutFrom(req, leader)
    ensures var (y, resp) := HandleAppend(rules, x, req);
            if resp.success then y.log == Adopt(x.log, leader[..req.prevIndex + |req.entries|]) && y.term == req.term
            else y.log == x.log
  {
    if HoldsPrevious(x.log, req) { MergeAdopts(x.log, leader, req); }
  }

  lemma ReceiverAdopts(rules: Rules, n: nat, s: Cluster, a: Action)
    requires Shape(n, s) && LogsSound(n, s) && ReignLogsSound(s) && AppendsSound(s)
    requires Enabled(n, s, a) && a.ReceiveAppend?
    ensures a.req.term in s.reigns
    ensures var x, y := s.nodes[a.i], Moved(rules, n, s.nodes[a.i], a);
            if HandleAppend(rules, x, a.req).1.success
            then y.log == Adopt(x.log, s.reigns[a.req.term].log[..a.req.prevIndex + |a.req.entries|])
                && y.term == a.req.term
            else y.log == x.log
  {
    assert Append(a.i, a.req) in s.sent;
    var x, leader := s.nodes[a.i], s.reigns[a.req.term].log;
    CoherentAgree(s.reigns, x.log, leader);
    NodeAdopts(rules, x, a.req, leader);
  }

  lemma NodeKeepsLog(rules: Rules, n: nat, x: Node, a: Action)
    requires n > 0 && !a.ReceiveAppend? && !a.ClientAppend? && !a.Crash?
    ensures Moved(rules, n, x, a).log == x.log
  {}

  lemma TakerFollows(rules: Rules, x: Node, req: AppendRequest)
    requires HandleAppend(rules, x, req).1.success
    ensures HandleAppend(rules, x, req).0.role == Follower && x.term <= req.term
  {}

  lemma ReceiverMovesLog(rules: Rules, n: nat, s: Cluster, a: Action, y: Node)
    requires Shape(n, s) && LogsSound(n, s) && ReignLogsSound(s) && AppendsSound(s)
    requires Enabled(n, s, a) && a.ReceiveAppend? && y == Moved(rules, n, s.nodes[a.i], a)
             && s.nodes[a.i].term <= y.term
    ensures LogStep(s.reigns, s.nodes[a.i], y)
  {
    ReceiverAdopts(rules, n, s, a);
    var x, leader, m := s.nodes[a.i], s.reigns[a.req.term].log, a.req.prevIndex + |a.req.entries|;
    if HandleAppend(rules, x, a.req).1.success {
      TakerFollows(rules, x, a.req);
      assert AppendSound(s.reigns, a.i, a.req);
      if y.log != x.log { assert y.log == leader[..m]; }
    }
  }

  lemma NodeMovesLog(rules: Rules, n: nat, reigns: map<nat, Reign>, x: Node, a: Action, y: Node)
    requires n > 0 && !a.ReceiveAppend? && (a.ClientAppend? ==> x.role == Leader)
    requires y == Moved(rules, n, x, a) && x.term <= y.term
    ensures LogStep(reigns, x, y)
  {
    if !a.ClientAppend? && !a.Crash? { NodeKeepsLog(rules, n, x, a); }
  }

  lemma StepMovesLog(rules: Rules, n: nat, s: Cluster, a: Action)
    requires Shape(n, s) && LogsSound(n, s) && ReignLogsSound(s) && AppendsSound(s) && Enabled(n, s, a)
    ensures LogMove(s, Next(rules, n, s, a), a.i)
  {
    var x := s.nodes[a.i];
    var y := Moved(rules, n, x, a);
    NodeMovesRole(rules, n, x, a);
    if a.ReceiveAppend? {
      ReceiverMovesLog(rules, n, s, a, y);
    } else {
      NodeMovesLog(rules, n, s.reigns, x, a, y);
    }
  }

  lemma StepGrowsReigns(n: nat, s: Cluster, s': Cluster, i: nat)
    requires Shape(n, s) && Shape(n, s') && LeadersReign(n, s) && i < n
    requires RoleMove(n, s, s', i) && LogMove(s, s', i)
    requires s'.nodes[i].role == Leader && s.nodes[i].role == Candidate ==> s.nodes[i].term !in s.reigns
    ensures ReignsGrow(s.reigns, s'.reigns)
  {}

  lemma CoherentAppended(r: map<nat, Reign>, x: Log, y: Log)
    requires Coherent(r, x) && x <= y && |y| == |x| + 1
    requires y[|x|].index == |x| + 1 && y[|x|].term in r && r[y[|x|].term].log == y
    ensures Coherent(r, y)
  {
    forall k | 0 <= k < |y| ensures y[k].index == k + 1 && y[k].term in r && y[..k + 1] <= r[y[k].term].log {
      if k < |x| { assert y[k] == x[k] && y[..k + 1] == x[..k + 1]; }
    }
  }

  lemma StartCoherent(r: map<nat, Reign>, leader: Log, y: Log)
    requires Coherent(r, leader) && Starts(y, leader)
    ensures Coherent(r, y)
  {
    var m :| 0 <= m <= |leader| && y == leader[..m];
    CoherentPrefix(r, leader, m);
  }

  lemma ExtendedLogCoherent(s: Cluster, s': Cluster, i: nat)
    requires i < |s.nodes| == |s'.nodes| && LogMove(s, s', i) && ReignsGrow(s.reigns, s'.reigns)
    requires Coherent(s.reigns, s.nodes[i].log) && ReignLogsSound(s)
    requires s'.reigns == Crowned(s.reigns, i, s'.nodes[i])
    ensures Coherent(s'.reigns, s'.nodes[i].log)
  {
    var x, y := s.nodes[i], s'.nodes[i];
    CoherentGrows(s.reigns, s'.reigns, x.log);
    if y.log != x.log && y.log != [] {
      if y.role == Leader {
        assert LastIndex(x.log) == |x.log|;
        CoherentAppended(s'.reigns, x.log, y.log);
      } else {
        StartCoherent(s.reigns, s.reigns[y.term].log, y.log);
        CoherentGrows(s.reigns, s'.reigns, y.log);
      }
    }
  }

  /** No entry is of a later term than its server. */
  lemma ExtendedLogTerms(reigns: map<nat, Reign>, x: Node, y: Node, k: nat)
    requires LogStep(reigns, x, y) && (forall j :: 0 <= j < |x.log| ==> x.log[j].term <= x.term) && k < |y.log|
    requires y.term in reigns ==>
               forall j :: 0 <= j < |reigns[y.term].log| ==> reigns[y.term].log[j].term <= y.term
    ensures y.log[k].term <= y.term
  {}

  lemma LogsKept(n: nat, s: Cluster, s': Cluster, i: nat)
    requires i < |s.nodes| == |s'.nodes| == n && LogMove(s, s', i) && ReignsGrow(s.reigns, s'.reigns)
    requires LogsSound(n, s) && ReignLogsSound(s)
    requires s'.reigns == Crowned(s.reigns, i, s'.nodes[i])
    ensures LogsSound(n, s')
  {
    ExtendedLogCoherent(s, s', i);
    forall k | 0 <= k < |s'.nodes[i].log| ensures s'.nodes[i].log[k].term <= s'.nodes[i].term {
      ExtendedLogTerms(s.reigns, s.nodes[i], s'.nodes[i], k);
    }
    forall j | 0 <= j < n && j != i ensures Coherent(s'.reigns, s'.nodes[j].log) {
      CoherentGrows(s.reigns, s'.reigns, s.nodes[j].log);
    }
  }

  lemma ReignLogsKept(n: nat, s: Cluster, s': Cluster, i: nat)
    requires i < |s'.nodes| == n && ReignsGrow(s.reigns, s'.reigns)
    requires ReignLogsSound(s) && LogsSound(n, s')
    requires s'.reigns == Crowned(s.reigns, i, s'.nodes[i])
    ensures ReignLogsSound(s')
  {
    forall t | t in s.reigns ensures Coherent(s'.reigns, s.reigns[t].log) {
      CoherentGrows(s.reigns, s'.reigns, s.reigns[t].log);
    }
  }

  lemma RequestsAreCut(n: nat, s: Cluster, i: nat, p: nat)
    requires Shape(n, s) && i < n && s.nodes[i].role == Leader && p in Peers(n, i) && NextIndexSound(n, s)
    ensures CutFrom(ReplicateRequest(s.nodes[i], p), s.nodes[i].log)
    ensures CutFrom(HeartbeatRequest(s.nodes[i], p), s.nodes[i].log)
  {}

  lemma AppendGrows(r: map<nat, Reign>, r': map<nat, Reign>, to: nat, req: AppendRequest)
    requires AppendSound(r, to, req) && ReignsGrow(r, r')
    ensures AppendSound(r', to, req)
  {
    var x, y := r[req.term].log, r'[req.term].log;
    assert x == y[..|x|];
  }

  lemma NewAppendSound(rules: Rules, n: nat, s: Cluster, a: Action, m: Message)
    requires Shape(n, s) && Enabled(n, s, a) && LeadersReign(n, s) && NextIndexSound(n, s)
    requires m in Outgoing(rules, s.nodes[a.i], a)
    ensures m.Append? ==> AppendSound(s.reigns, m.to, m.append)
    ensures m.AnswerAppend? ==>
            Append(m.from, m.append) in s.sent && (m.answer.success ==> m.answer.term == m.append.term)
  {
    if a.Replicate? || a.Heartbeat? {
      RequestsAreCut(n, s, a.i, a.peer);
    }
  }

  lemma AppendsKept(s: Cluster, s': Cluster, sending: set<Message>)
    requires AppendsSound(s) && ReignsGrow(s.reigns, s'.reigns) && s'.sent == s.sent + sending
    requires forall m :: m in sending ==>
                           && (m.Append? ==> AppendSound(s.reigns, m.to, m.append))
                           && (m.AnswerAppend? ==> Append(m.from, m.append) in s.sent
                                                   && (m.answer.success ==> m.answer.term == m.append.term))
    ensures AppendsSound(s')
  {
    forall m | m in s'.sent && m.Append? ensures AppendSound(s'.reigns, m.to, m.append) {
      AppendGrows(s.reigns, s'.reigns, m.to, m.append);
    }
  }

  /** How a step may move the leader's next index for a peer. */
  ghost predicate NextMove(x: Node, a: Action, p: nat, y: Node) {
    y.role == Leader ==>
      || Lookup(y.nextIndex, p) == LastIndex(x.log) + 1
      || (x.role == Leader && Lookup(y.nextIndex, p) <= Lookup(x.nextIndex, p))
      || (&& x.role == Leader && a.ReceiveAnswer? && a.resp.term == x.term && a.resp.success
          && Lookup(y.nextIndex, p) == a.req.prevIndex + |a.req.entries| + 1)
  }

  lemma CountMovesNext(n: nat, x: Node, a: Action, p: nat)
    requires n > 0 && p in Peers(n, x.id) && a.ReceiveVote?
    ensures NextMove(x, a, p, CountVote(n, x, a.asked, a.voter, a.vote))
  {}

  lemma AnswerMovesNext(n: nat, x: Node, a: Action, p: nat)
    requires n > 0 && a.ReceiveAnswer?
    ensures NextMove(x, a, p, HandleAppendResponse(n, x, a.peer, a.req, a.resp))
  {}

  lemma VoterKeepsNext(x: Node, ask: VoteRequest)
    ensures var y := HandleVoteRequest(x, ask).0; y.role == Leader ==> x.role == Leader && y.nextIndex == x.nextIndex
  {}

  lemma ReceiverKeepsNext(rules: Rules, x: Node, req: AppendRequest)
    ensures var y := HandleAppend(rules, x, req).0; y.role == Leader ==> x.role == Leader && y.nextIndex == x.nextIndex
  {}

  lemma NodeMovesNext(rules: Rules, n: nat, x: Node, a: Action, p: nat)
    requires n > 0 && p in Peers(n, x.id)
    ensures NextMove(x, a, p, Moved(rules, n, x, a))
  {
    match a
    case ReceiveVote(_, _, _, _) => CountMovesNext(n, x, a, p);
    case ReceiveAnswer(_, _, _, _) => AnswerMovesNext(n, x, a, p);
    case ReceiveAskVote(_, ask) => VoterKeepsNext(x, ask);
    case ReceiveAppend(_, req) => ReceiverKeepsNext(rules, x, req);
    case _ =>
  }

  lemma NextIndexKept(rules: Rules, n: nat, s: Cluster, a: Action)
    requires Shape(n, s) && Enabled(n, s, a) && LeadersReign(n, s) && LogsSound(n, s) && AppendsSound(s)
             && NextIndexSound(n, s)
    requires LogMove(s, Next(rules, n, s, a), a.i)
    ensures NextIndexSound(n, Next(rules, n, s, a))
  {
    var s', x := Next(rules, n, s, a), s.nodes[a.i];
    var y := s'.nodes[a.i];
    if y.role == Leader {
      assert |x.log| <= |y.log|;
      forall p | p in Peers(n, a.i) ensures Lookup(y.nextIndex, p) <= |y.log| + 1 {
        NodeMovesNext(rules, n, x, a, p);
        if a.ReceiveAnswer? && a.resp.term == x.term && a.resp.success {
          assert AnswerAppend(a.peer, a.req, a.resp) in s.sent && Append(a.peer, a.req) in s.sent;
          assert AppendSound(s.reigns, a.peer, a.req);
        }
      }
    }
  }

  /** One step keeps the log invariant, whatever restarts may have lost. */
  lemma LogKept(rules: Rules, n: nat, s: Cluster, a: Action)
    requires ElectionInv(rules, n, s) && LogInv(n, s) && Enabled(n, s, a) && n % 2 == 1
    requires rules.keepVote || VotesAfresh(s, a)
    ensures var s' := Next(rules, n, s, a);
            ElectionInv(rules, n, s') && LogInv(n, s') && ReignsGrow(s.reigns, s'.reigns)
  {
    var s' := Next(rules, n, s, a);
    ElectionKept(rules, n, s, a);
    StepMovesRole(rules, n, s, a);
    StepMovesLog(rules, n, s, a);
    NewReignIsFirst(rules, n, s, s', a.i);
    StepGrowsReigns(n, s, s', a.i);
    LogsKept(n, s, s', a.i);
    ReignLogsKept(n, s, s', a.i);
    var sending := Outgoing(rules, s.nodes[a.i], a);
    forall m | m in sending
      ensures m.Append? ==> AppendSound(s.reigns, m.to, m.append)
      ensures m.AnswerAppend? ==>
              Append(m.from, m.append) in s.sent && (m.answer.success ==> m.answer.term == m.append.term)
    {
      NewAppendSound(rules, n, s, a, m);
    }
    AppendsKept(s, s', sending);
    NextIndexKept(rules, n, s, a);
  }
}
