/** Leader completeness: what a quorum confirmed in one term is in the log of every later leader. */
module RaftCompleteness {
  import opened RaftTypes
  import opened RaftSteps
  import opened RaftMerge
  import opened RaftCluster
  import opened RaftElection
  import opened RaftLogs
  import opened Sets
  import opened Numbers

  /** How much of the log of term t's leader server v has confirmed while in term t. */
  function Confirms(s: Cluster, v: nat, t: nat): nat {
    if t in s.reigns && s.reigns[t].leader == v then |s.reigns[t].log|
    else if (t, v) in s.acks then s.acks[(t, v)] else 0
  }

  /** Position k of the log of term t's leader holds an entry of that very term. */
  predicate Choosable(reigns: map<nat, Reign>, t: nat, k: nat) {
    t in reigns && 0 < k <= |reigns[t].log| && reigns[t].log[k - 1].term == t
  }

  function Holders(n: nat, s: Cluster, t: nat, k: nat): set<nat> {
    set v | v in Ids(n) && Confirms(s, v, t) >= k
  }

  /** Servers past term t that did not confirm position k in it, and never will. */
  function Refusers(n: nat, s: Cluster, t: nat, k: nat): set<nat>
    requires |s.nodes| == n
  {
    set v | v in Ids(n) && s.nodes[v].term > t && Confirms(s, v, t) < k
  }

  ghost predicate Committed(n: nat, s: Cluster, t: nat, k: nat)
    requires n > 0
  {
    Choosable(s.reigns, t, k) && |Holders(n, s, t, k)| >= Majority(n)
  }

  ghost predicate Blocked(n: nat, s: Cluster, t: nat, k: nat)
    requires |s.nodes| == n > 0
  {
    |Refusers(n, s, t, k)| >= Majority(n)
  }

  /** Either the log carries the first k entries of term t's leader, or they can never be committed. */
  ghost predicate Carries(n: nat, s: Cluster, t: nat, k: nat, x: Log)
    requires |s.nodes| == n > 0 && Choosable(s.reigns, t, k)
  {
    s.reigns[t].log[..k] <= x || Blocked(n, s, t, k)
  }

  ghost predicate AcksSound(n: nat, s: Cluster)
    requires |s.nodes| == n
  {
    forall t, v :: (t, v) in s.acks ==>
                     t in s.reigns && v < n && t <= s.nodes[v].term && s.acks[(t, v)] <= |s.reigns[t].log|
  }

  ghost predicate ReignsCarry(n: nat, s: Cluster)
    requires |s.nodes| == n > 0
  {
    forall u: nat, t: nat, k: nat :: u in s.reigns && t < u && Choosable(s.reigns, t, k) ==>
        Carries(n, s, t, k, s.reigns[u].log)
  }

  ghost predicate LogsCarry(n: nat, s: Cluster)
    requires |s.nodes| == n > 0
  {
    forall v: nat, t: nat, k: nat :: v < n && Choosable(s.reigns, t, k) && Confirms(s, v, t) >= k ==>
                        Carries(n, s, t, k, s.nodes[v].log)
  }

  ghost predicate CandidateCarries(n: nat, s: Cluster, voter: nat, c: nat)
    requires |s.nodes| == n > 0 && c < n
  {
    forall t: nat, k: nat :: t < s.nodes[c].term && Choosable(s.reigns, t, k) && Confirms(s, voter, t) >= k ==>
                     Carries(n, s, t, k, s.nodes[c].log)
  }

  ghost predicate VotesCarry(n: nat, s: Cluster)
    requires |s.nodes| == n > 0
  {
    forall v :: v in s.votes && v.candidate < n
                && s.nodes[v.candidate].role == Candidate && s.nodes[v.candidate].term == v.term ==>
                  CandidateCarries(n, s, v.voter, v.candidate)
  }

  /** Votes are given only for terms the candidate has reached, and requests describe its log. */
  ghost predicate AsksSound(n: nat, s: Cluster)
    requires |s.nodes| == n
  {
    && (forall v :: v in s.votes ==> v.candidate < n && v.term <= s.nodes[v.candidate].term)
    && (forall m :: m in s.sent && m.AskVote? ==>
                      && m.req.candidate < n
                      && (s.nodes[m.req.candidate].role == Candidate && s.nodes[m.req.candidate].term == m.req.term ==>
                            && m.req.lastIndex == LastIndex(s.nodes[m.req.candidate].log)
                            && m.req.lastTerm == LastTerm(s.nodes[m.req.candidate].log)))
  }

  ghost predicate CompletenessInv(n: nat, s: Cluster)
    requires |s.nodes| == n > 0
  {
    AcksSound(n, s) && ReignsCarry(n, s) && LogsCarry(n, s) && VotesCarry(n, s) && AsksSound(n, s)
  }

  // ----- what a quorum has confirmed cannot be blocked -----

  lemma CommittedNotBlocked(n: nat, s: Cluster, t: nat, k: nat)
    requires |s.nodes| == n && n % 2 == 1 && Committed(n, s, t, k)
    ensures !Blocked(n, s, t, k)
  {
    assert Holders(n, s, t, k) * Refusers(n, s, t, k) == {};
    if Blocked(n, s, t, k) {
      SharedMember(n, Holders(n, s, t, k), Refusers(n, s, t, k));
    }
  }

  /** Leader completeness for one state. */
  lemma LaterLeadersHold(n: nat, s: Cluster, t: nat, k: nat, u: nat)
    requires |s.nodes| == n && n % 2 == 1 && ReignsCarry(n, s) && Committed(n, s, t, k)
    requires u in s.reigns && t <= u
    ensures s.reigns[t].log[..k] <= s.reigns[u].log
  {
    CommittedNotBlocked(n, s, t, k);
  }

  // ----- the records move one way only -----

  ghost predicate Evolves(n: nat, s: Cluster, s': Cluster)
    requires |s.nodes| == n == |s'.nodes|
  {
    && ReignsGrow(s.reigns, s'.reigns)
    && (forall v :: 0 <= v < n ==> s.nodes[v].term <= s'.nodes[v].term)
    && (forall v: nat, t: nat :: v < n ==> Confirms(s, v, t) <= Confirms(s', v, t))
    && (forall v: nat, t: nat :: v < n && t < s.nodes[v].term ==> Confirms(s', v, t) == Confirms(s, v, t))
  }

  lemma BlockedStays(n: nat, s: Cluster, s': Cluster, t: nat, k: nat)
    requires |s.nodes| == n == |s'.nodes| && n > 0 && Evolves(n, s, s')
    ensures Blocked(n, s, t, k) ==> Blocked(n, s', t, k)
  {
    forall v | v in Refusers(n, s, t, k) ensures v in Refusers(n, s', t, k) {}
    SubsetSize(Refusers(n, s, t, k), Refusers(n, s', t, k));
  }

  lemma CommittedStays(n: nat, s: Cluster, s': Cluster, t: nat, k: nat)
    requires |s.nodes| == n == |s'.nodes| && n > 0 && Evolves(n, s, s')
    requires Committed(n, s, t, k)
    ensures Committed(n, s', t, k) && s'.reigns[t].log[..k] == s.reigns[t].log[..k]
  {
    forall v | v in Holders(n, s, t, k) ensures v in Holders(n, s', t, k) {}
    SubsetSize(Holders(n, s, t, k), Holders(n, s', t, k));
  }

  lemma CarriesStays(n: nat, s: Cluster, s': Cluster, t: nat, k: nat, x: Log, x': Log)
    requires |s.nodes| == n == |s'.nodes| && n > 0 && Evolves(n, s, s')
    requires Choosable(s.reigns, t, k) && Carries(n, s, t, k, x) && x <= x'
    ensures Choosable(s'.reigns, t, k) && Carries(n, s', t, k, x')
  {
    BlockedStays(n, s, s', t, k);
    assert s.reigns[t].log <= s'.reigns[t].log;
    assert s'.reigns[t].log[..k] == s.reigns[t].log[..k];
  }

  /** How one step may change what is confirmed. */
  ghost predicate AckMove(s: Cluster, s': Cluster, i: nat)
    requires i < |s.nodes| == |s'.nodes|
  {
    var y := s'.nodes[i];
    || s'.acks == s.acks
    || (&& y.role == Follower && y.term in s.reigns && s.reigns[y.term].leader != i && (y.term, i) in s'.acks
        && s'.acks == s.acks[(y.term, i) := s'.acks[(y.term, i)]]
        && ((y.term, i) in s.acks ==> s.acks[(y.term, i)] <= s'.acks[(y.term, i)])
        && s'.acks[(y.term, i)] <= |s.reigns[y.term].log|)
  }

  lemma StepMovesAcks(rules: Rules, n: nat, s: Cluster, a: Action)
    requires Shape(n, s) && AppendsSound(s) && AcksSound(n, s) && Enabled(n, s, a)
    ensures AckMove(s, Next(rules, n, s, a), a.i)
  {
    if a.ReceiveAppend? {
      assert AppendSound(s.reigns, a.i, a.req);
    }
  }

  lemma StepEvolves(n: nat, s: Cluster, s': Cluster, i: nat)
    requires Shape(n, s) && Shape(n, s') && i < n && LeadersReign(n, s) && AcksSound(n, s)
    requires RoleMove(n, s, s', i) && LogMove(s, s', i) && AckMove(s, s', i) && ReignsGrow(s.reigns, s'.reigns)
    requires s'.nodes[i].role == Leader && s.nodes[i].role == Candidate ==> s.nodes[i].term !in s.reigns
    ensures Evolves(n, s, s') && AcksSound(n, s')
  {
  }

  // ----- later leaders -----

  /** A quorum that elected a later leader refuses whatever the old leader appends afterwards. */
  lemma LateEntryBlocked(rules: Rules, n: nat, s: Cluster, t: nat, k: nat, u: nat)
    requires Shape(n, s) && VotesSound(rules, n, s) && ReignsElected(n, s)
    requires u in s.reigns && t < u
    requires forall v :: 0 <= v < n && s.nodes[v].term > t ==> Confirms(s, v, t) < k
    ensures Blocked(n, s, t, k)
  {
    var voters := Voters(s, u, s.reigns[u].leader);
    forall v | v in voters ensures v in Refusers(n, s, t, k) {
      assert Vote(u, v, s.reigns[u].leader) in s.votes;
    }
    SubsetSize(voters, Refusers(n, s, t, k));
  }

  /** The winner of an election carries everything that can still be committed. */
  lemma WinnerCarries(rules: Rules, n: nat, s: Cluster, c: nat, t: nat, k: nat)
    requires Shape(n, s) && VotesSound(rules, n, s) && VotesCarry(n, s) && c < n
    requires s.nodes[c].role == Candidate && |Voters(s, s.nodes[c].term, c)| >= Majority(n)
    requires t < s.nodes[c].term && Choosable(s.reigns, t, k)
    ensures Carries(n, s, t, k, s.nodes[c].log)
  {
    var u := s.nodes[c].term;
    var voters := Voters(s, u, c);
    if v :| v in voters && Confirms(s, v, t) >= k {
      assert Vote(u, v, c) in s.votes;
      assert CandidateCarries(n, s, v, c);
    } else {
      forall v | v in voters ensures v in Refusers(n, s, t, k) {
        assert Vote(u, v, c) in s.votes;
      }
      SubsetSize(voters, Refusers(n, s, t, k));
    }
  }

  /** A position becomes choosable only when the sitting leader of its term appends there. */
  lemma NewlyChoosable(n: nat, s: Cluster, s': Cluster, i: nat, t: nat, k: nat)
    requires |s.nodes| == n == |s'.nodes| && i < n && n > 0
    requires LeadersReign(n, s) && LogsSound(n, s)
    requires RoleMove(n, s, s', i) && LogMove(s, s', i)
    requires s'.nodes[i].role == Leader && s.nodes[i].role == Candidate ==> s.nodes[i].term !in s.reigns
    requires Choosable(s'.reigns, t, k) && !Choosable(s.reigns, t, k)
    ensures t in s.reigns && k == |s.reigns[t].log| + 1 && s.nodes[i].term == t == s'.nodes[i].term
    ensures s'.nodes[i].role == Leader && s.reigns[t].leader == i
  {}

  lemma NewEntryUnconfirmed(n: nat, s: Cluster, s': Cluster, i: nat, t: nat, k: nat)
    requires |s.nodes| == n == |s'.nodes| && i < n && Evolves(n, s, s') && AcksSound(n, s)
    requires s'.nodes == s.nodes[i := s'.nodes[i]] && s'.nodes[i].term == t
    requires t in s.reigns && k == |s.reigns[t].log| + 1
    ensures forall v :: 0 <= v < n && s'.nodes[v].term > t ==> Confirms(s', v, t) < k
  {}

  lemma ReignsCarryKept(rules: Rules, n: nat, s: Cluster, s': Cluster, i: nat)
    requires Shape(n, s) && Shape(n, s') && i < n && Evolves(n, s, s') && VotesSound(rules, n, s')
             && ReignsElected(n, s')
    requires LeadersReign(n, s) && LogsSound(n, s) && AcksSound(n, s) && ReignsCarry(n, s)
    requires RoleMove(n, s, s', i) && LogMove(s, s', i)
    requires s'.nodes[i].role == Leader && s.nodes[i].role == Candidate ==>
               && s.nodes[i].term !in s.reigns
               && forall t: nat, k: nat :: t < s.nodes[i].term && Choosable(s.reigns, t, k) ==>
                                             Carries(n, s, t, k, s.nodes[i].log)
    ensures ReignsCarry(n, s')
  {
    forall u: nat, t: nat, k: nat | u in s'.reigns && t < u && Choosable(s'.reigns, t, k)
      ensures Carries(n, s', t, k, s'.reigns[u].log)
    {
      if Choosable(s.reigns, t, k) {
        if u in s.reigns {
          CarriesStays(n, s, s', t, k, s.reigns[u].log, s'.reigns[u].log);
        } else {
          CarriesStays(n, s, s', t, k, s.nodes[i].log, s'.reigns[u].log);
        }
      } else {
        NewlyChoosable(n, s, s', i, t, k);
        NewEntryUnconfirmed(n, s, s', i, t, k);
        LateEntryBlocked(rules, n, s', t, k, u);
      }
    }
  }

  // ----- servers keep what they confirmed -----

  /** The server takes over the first m entries of the log of its (new) term's leader and confirms them. */
  ghost predicate Accepts(s: Cluster, s': Cluster, i: nat, m: nat)
    requires i < |s.nodes| == |s'.nodes|
  {
    var x, y := s.nodes[i], s'.nodes[i];
    && y.role == Follower && x.term <= y.term && y.term in s.reigns && s.reigns[y.term].leader != i
    && m <= |s.reigns[y.term].log|
    && s'.reigns == s.reigns
    && y.log == Adopt(x.log, s.reigns[y.term].log[..m])
    && Confirms(s', i, y.term) == Max(Confirms(s, i, y.term), m)
    && forall t: nat :: t != y.term ==> Confirms(s', i, t) == Confirms(s, i, t)
  }

  lemma OthersConfirmSame(n: nat, s: Cluster, s': Cluster, i: nat, v: nat, t: nat)
    requires |s.nodes| == n == |s'.nodes| && i < n && v < n && v != i && n > 0
    requires LeadersReign(n, s) && AcksSound(n, s) && RoleMove(n, s, s', i) && AckMove(s, s', i)
    requires s'.nodes[i].role == Leader && s.nodes[i].role == Candidate ==> s.nodes[i].term !in s.reigns
    ensures Confirms(s', v, t) == Confirms(s, v, t)
  {}

  lemma ChoosableBefore(n: nat, s: Cluster, s': Cluster, v: nat, t: nat, k: nat)
    requires |s.nodes| == n && AcksSound(n, s) && ReignsGrow(s.reigns, s'.reigns)
    requires Choosable(s'.reigns, t, k) && 0 < k <= Confirms(s, v, t)
    ensures Choosable(s.reigns, t, k)
  {
    assert t in s.reigns && s.reigns[t].log <= s'.reigns[t].log;
  }

  lemma AdoptKeeps(x: Log, leader: Log, p: Log, m: nat)
    requires p <= x && p <= leader && m <= |leader|
    ensures p <= Adopt(x, leader[..m])
  {
    if m < |p| { assert leader[..m] == p[..m] == x[..m]; }
  }

  /** Accepting a leader's entries never drops entries that were confirmed and can be committed. */
  lemma AcceptorCarries(n: nat, s: Cluster, s': Cluster, i: nat, m: nat, t: nat, k: nat)
    requires |s.nodes| == n == |s'.nodes| && i < n && n > 0
    requires ReignsElected(n, s) && AcksSound(n, s) && ReignsCarry(n, s) && LogsCarry(n, s)
    requires Evolves(n, s, s') && Accepts(s, s', i, m)
    requires Choosable(s.reigns, t, k) && Confirms(s', i, t) >= k
    ensures Carries(n, s', t, k, s'.nodes[i].log)
  {
    var x, y := s.nodes[i], s'.nodes[i];
    var leader, p := s.reigns[y.term].log, s.reigns[t].log[..k];
    BlockedStays(n, s, s', t, k);
    if t == y.term && k <= m {
      assert p <= leader[..m] <= y.log;
    } else if !Blocked(n, s, t, k) {
      assert Carries(n, s, t, k, x.log);
      assert t <= y.term;
      AdoptKeeps(x.log, leader, p, m);
    }
  }

  lemma LogsCarryKept(n: nat, s: Cluster, s': Cluster, i: nat, m: nat)
    requires Shape(n, s) && Shape(n, s') && i < n && LeadersReign(n, s) && LeadersReign(n, s') && ReignsElected(n, s)
    requires AcksSound(n, s) && ReignsCarry(n, s) && LogsCarry(n, s) && Evolves(n, s, s')
    requires RoleMove(n, s, s', i) && AckMove(s, s', i)
    requires s'.nodes[i].role == Leader && s.nodes[i].role == Candidate ==> s.nodes[i].term !in s.reigns
    requires (s'.acks == s.acks && s.nodes[i].log <= s'.nodes[i].log) || Accepts(s, s', i, m)
    ensures LogsCarry(n, s')
  {
    forall v: nat, t: nat, k: nat | v < n && Choosable(s'.reigns, t, k) && Confirms(s', v, t) >= k
      ensures Carries(n, s', t, k, s'.nodes[v].log)
    {
      if v != i {
        OthersConfirmSame(n, s, s', i, v, t);
        ChoosableBefore(n, s, s', v, t, k);
        CarriesStays(n, s, s', t, k, s.nodes[v].log, s'.nodes[v].log);
      } else if Accepts(s, s', i, m) {
        AcceptorCarries(n, s, s', i, m, t, k);
      } else if s'.nodes[i].role == Leader && s'.nodes[i].term == t {
        assert s'.reigns[t].log == s'.nodes[i].log;
      } else {
        ChoosableBefore(n, s, s', i, t, k);
        CarriesStays(n, s, s', t, k, s.nodes[i].log, s'.nodes[i].log);
      }
    }
  }

  // ----- voters hand over what they confirmed -----

  lemma TermsAscend(s: Cluster, x: Log, j: nat, k: nat)
    requires Coherent(s.reigns, x) && ReignLogsSound(s) && j <= k < |x|
    ensures x[j].term <= x[k].term
  {
    assert x[..k + 1][j] == s.reigns[x[k].term].log[j];
  }

  /** Of two starts of one log, the one with older entries only is a start of the other, if that one ends later. */
  lemma EarlierStart(p: Log, z: Log, leader: Log, t: nat)
    requires p <= leader && z <= leader && z != [] && (forall i :: 0 <= i < |p| ==> p[i].term <= t)
    requires t < z[|z| - 1].term || |p| <= |z|
    ensures p <= z
  {
    assert z[|z| - 1] == leader[|z| - 1];
    assert |z| <= |p| ==> p[|z| - 1] == leader[|z| - 1];
  }

  lemma CoherentStart(s: Cluster, z: Log)
    requires Coherent(s.reigns, z) && z != []
    ensures LastTerm(z) in s.reigns && z <= s.reigns[LastTerm(z)].log
  {
    assert z[..|z|] == z;
  }

  /** A log that starts with an entry of term t, or ends with one, ends in that term or later. */
  lemma EndsLater(s: Cluster, x: Log, p: Log, t: nat)
    requires Coherent(s.reigns, x) && ReignLogsSound(s) && p != [] && p <= x && p[|p| - 1].term == t
    ensures x != [] && t <= LastTerm(x)
  {
    TermsAscend(s, x, |p| - 1, |x| - 1);
  }

  /** A log at least as up to date as the voter's carries what the voter's log carries. */
  lemma UpToDateCarries(n: nat, s: Cluster, x: Log, z: Log, t: nat, k: nat)
    requires |s.nodes| == n > 0 && ReignLogsSound(s) && ReignsCarry(n, s)
    requires Coherent(s.reigns, x) && Coherent(s.reigns, z) && 0 !in s.reigns
    requires Choosable(s.reigns, t, k) && Carries(n, s, t, k, x)
    requires UpToDate(x, LastIndex(z), LastTerm(z))
    ensures Carries(n, s, t, k, z)
  {
    var p, w := s.reigns[t].log[..k], LastTerm(z);
    if !Blocked(n, s, t, k) {
      EndsLater(s, x, p, t);
      CoherentStart(s, z);
      if w > t { assert Carries(n, s, t, k, s.reigns[w].log); }
      EarlierStart(p, z, s.reigns[w].log, t);
    }
  }

  lemma CandidateStillCarries(n: nat, s: Cluster, s': Cluster, voter: nat, c: nat)
    requires |s.nodes| == n == |s'.nodes| && n > 0 && voter < n && c < n && Evolves(n, s, s') && AcksSound(n, s)
    requires s'.nodes[c].term == s.nodes[c].term <= s'.nodes[voter].term && s'.nodes[c].log == s.nodes[c].log
    requires s.nodes[c].term <= s.nodes[voter].term || forall t: nat :: Confirms(s', voter, t) == Confirms(s, voter, t)
    requires CandidateCarries(n, s, voter, c)
    ensures CandidateCarries(n, s', voter, c)
  {
    forall t: nat, k: nat | t < s'.nodes[c].term && Choosable(s'.reigns, t, k) && Confirms(s', voter, t) >= k
      ensures Carries(n, s', t, k, s'.nodes[c].log)
    {
      ChoosableBefore(n, s, s', voter, t, k);
      CarriesStays(n, s, s', t, k, s.nodes[c].log, s'.nodes[c].log);
    }
  }

  /** A vote given in this step went to the server itself or to a log that carries the voter's. */
  ghost predicate NewVoteSound(n: nat, s: Cluster, s': Cluster, i: nat, v: Vote)
    requires |s.nodes| == n == |s'.nodes| && i < n && n > 0
  {
    && v.voter == i && v.term == s'.nodes[i].term && v.candidate < n
    && (v.candidate != i && s.nodes[v.candidate].role == Candidate && s.nodes[v.candidate].term == v.term ==>
          CandidateCarries(n, s, i, v.candidate) && forall t: nat :: Confirms(s', i, t) == Confirms(s, i, t))
  }

  lemma VotesCarryKept(rules: Rules, n: nat, s: Cluster, s': Cluster, i: nat)
    requires Shape(n, s) && Shape(n, s') && i < n && Evolves(n, s, s') && AcksSound(n, s) && VotesSound(rules, n, s)
    requires LogsCarry(n, s') && VotesCarry(n, s) && AsksSound(n, s)
    requires RoleMove(n, s, s', i) && (s'.nodes[i].role == Candidate ==> s'.nodes[i].log == s.nodes[i].log)
    requires forall v :: v in s'.votes && v !in s.votes ==> NewVoteSound(n, s, s', i, v)
    ensures VotesCarry(n, s')
  {
    forall v | v in s'.votes && v.candidate < n
               && s'.nodes[v.candidate].role == Candidate && s'.nodes[v.candidate].term == v.term
      ensures CandidateCarries(n, s', v.voter, v.candidate)
    {
      if v.voter != v.candidate {
        CandidateStillCarries(n, s, s', v.voter, v.candidate);
      }
    }
  }

  // ----- one step of the cluster -----

  /** A restart, which reloads no log, finds no log to lose. */
  ghost predicate LosesNoLog(s: Cluster, a: Action) {
    a.Crash? && a.i < |s.nodes| ==> s.nodes[a.i].log == []
  }

  /** The append request is one the server accepts. */
  predicate Accepted(rules: Rules, x: Node, a: Action) {
    a.ReceiveAppend? && HandleAppend(rules, x, a.req).1.success
  }

  lemma StepAccepts(rules: Rules, n: nat, s: Cluster, a: Action, s': Cluster, m: nat)
    requires Shape(n, s) && LogsSound(n, s) && ReignLogsSound(s) && AppendsSound(s) && Enabled(n, s, a)
    requires Accepted(rules, s.nodes[a.i], a) && s' == Next(rules, n, s, a) && m == a.req.prevIndex + |a.req.entries|
    ensures Accepts(s, s', a.i, m)
  {
    ReceiverAdopts(rules, n, s, a);
    assert AppendSound(s.reigns, a.i, a.req);
  }

  lemma RefusalKeepsLog(rules: Rules, x: Node, req: AppendRequest)
    requires !HandleAppend(rules, x, req).1.success
    ensures HandleAppend(rules, x, req).0.log == x.log
  {}

  lemma NodeExtends(rules: Rules, n: nat, x: Node, a: Action, y: Node)
    requires n > 0 && y == Moved(rules, n, x, a) && !Accepted(rules, x, a) && (a.Crash? ==> x.log == [])
    ensures x.log <= y.log
  {
    if a.ReceiveAppend? {
      RefusalKeepsLog(rules, x, a.req);
    } else if !a.ClientAppend? && !a.Crash? {
      NodeKeepsLog(rules, n, x, a);
    }
  }

  lemma StepExtends(rules: Rules, n: nat, s: Cluster, a: Action, s': Cluster)
    requires |s.nodes| == n && a.i < n && s' == Next(rules, n, s, a)
    requires LosesNoLog(s, a) && !Accepted(rules, s.nodes[a.i], a)
    ensures s'.acks == s.acks && s.nodes[a.i].log <= s'.nodes[a.i].log
  {
    NodeExtends(rules, n, s.nodes[a.i], a, s'.nodes[a.i]);
  }

  lemma GrantHandsOver(rules: Rules, n: nat, s: Cluster, a: Action, c: nat)
    requires ElectionInv(rules, n, s) && LogInv(n, s) && CompletenessInv(n, s) && Enabled(n, s, a) && a.ReceiveAskVote?
    requires HandleVoteRequest(s.nodes[a.i], a.ask).1.granted && c == a.ask.candidate
    requires s.nodes[c].role == Candidate && s.nodes[c].term == a.ask.term
    ensures CandidateCarries(n, s, a.i, c)
  {
    assert AskVote(a.ask) in s.sent;
    forall t: nat, k: nat | t < s.nodes[c].term && Choosable(s.reigns, t, k) && Confirms(s, a.i, t) >= k
      ensures Carries(n, s, t, k, s.nodes[c].log)
    {
      UpToDateCarries(n, s, s.nodes[a.i].log, s.nodes[c].log, t, k);
    }
  }

  lemma VotingConfirmsNothing(rules: Rules, n: nat, s: Cluster, a: Action)
    requires Shape(n, s) && Enabled(n, s, a) && a.ReceiveAskVote? && LeadersReign(n, s)
    ensures forall t: nat :: Confirms(Next(rules, n, s, a), a.i, t) == Confirms(s, a.i, t)
  {}

  lemma NewVotesSound(rules: Rules, n: nat, s: Cluster, a: Action, v: Vote)
    requires ElectionInv(rules, n, s) && LogInv(n, s) && CompletenessInv(n, s) && Enabled(n, s, a)
    requires v in Cast(s.nodes[a.i], a)
    ensures NewVoteSound(n, s, Next(rules, n, s, a), a.i, v)
  {
    if a.ReceiveAskVote? {
      assert AskVote(a.ask) in s.sent;
      VotingConfirmsNothing(rules, n, s, a);
      if s.nodes[v.candidate].role == Candidate && s.nodes[v.candidate].term == v.term {
        GrantHandsOver(rules, n, s, a, v.candidate);
      }
    }
  }

  lemma AsksKept(rules: Rules, n: nat, s: Cluster, s': Cluster, i: nat)
    requires Shape(n, s) && Shape(n, s') && i < n && BallotsSound(n, s) && AsksSound(n, s)
    requires RoleMove(n, s, s', i) && (s'.nodes[i].role == Candidate ==> s'.nodes[i].log == s.nodes[i].log)
    requires forall v :: v in s'.votes && v !in s.votes ==> v.candidate < n && v.term <= s'.nodes[v.candidate].term
    requires forall m :: m in s'.sent && m !in s.sent && m.AskVote? ==>
                           m.req == VoteRequest(s.nodes[i].term, i, LastIndex(s.nodes[i].log), LastTerm(s.nodes[i].log))
    ensures AsksSound(n, s')
  {}

  lemma NewAsksSound(rules: Rules, n: nat, s: Cluster, a: Action)
    requires Shape(n, s) && BallotsSound(n, s) && Enabled(n, s, a)
    ensures var s' := Next(rules, n, s, a);
            && (forall v :: v in Cast(s.nodes[a.i], a) ==> v.candidate < n && v.term <= s'.nodes[v.candidate].term)
            && (forall m :: m in Outgoing(rules, s.nodes[a.i], a) && m.AskVote? ==>
                  m.req == VoteRequest(s.nodes[a.i].term, a.i, LastIndex(s.nodes[a.i].log), LastTerm(s.nodes[a.i].log)))
  {
    if a.ReceiveAskVote? { assert AskVote(a.ask) in s.sent; }
  }

  lemma OnlyVotesElect(rules: Rules, n: nat, x: Node, a: Action)
    requires n > 0 && x.role == Candidate && Moved(rules, n, x, a).role == Leader
    ensures a.ReceiveVote?
  {}

  lemma ElectedHasQuorum(rules: Rules, n: nat, s: Cluster, a: Action, s': Cluster)
    requires Shape(n, s) && TalliesSound(n, s) && Enabled(n, s, a) && s' == Next(rules, n, s, a)
    requires RoleMove(n, s, s', a.i) && s.nodes[a.i].role == Candidate && s'.nodes[a.i].role == Leader
    ensures |Voters(s, s.nodes[a.i].term, a.i)| >= Majority(n)
  {
    OnlyVotesElect(rules, n, s.nodes[a.i], a);
    WinnerHasQuorum(n, s, s', a.i);
    assert s'.votes == s.votes;
  }

  lemma ElectedCarries(rules: Rules, n: nat, s: Cluster, c: nat)
    requires Shape(n, s) && VotesSound(rules, n, s) && VotesCarry(n, s) && c < n && s.nodes[c].role == Candidate
    requires |Voters(s, s.nodes[c].term, c)| >= Majority(n)
    ensures forall t: nat, k: nat :: t < s.nodes[c].term && Choosable(s.reigns, t, k) ==>
                                       Carries(n, s, t, k, s.nodes[c].log)
  {
    forall t: nat, k: nat | t < s.nodes[c].term && Choosable(s.reigns, t, k)
      ensures Carries(n, s, t, k, s.nodes[c].log)
    {
      WinnerCarries(rules, n, s, c, t, k);
    }
  }

  lemma AcceptsOrExtends(rules: Rules, n: nat, s: Cluster, a: Action, s': Cluster) returns (m: nat)
    requires Shape(n, s) && LogsSound(n, s) && ReignLogsSound(s) && AppendsSound(s)
    requires Enabled(n, s, a) && LosesNoLog(s, a) && s' == Next(rules, n, s, a)
    ensures (s'.acks == s.acks && s.nodes[a.i].log <= s'.nodes[a.i].log) || Accepts(s, s', a.i, m)
  {
    m := 0;
    if Accepted(rules, s.nodes[a.i], a) {
      m := a.req.prevIndex + |a.req.entries|;
      StepAccepts(rules, n, s, a, s', m);
    } else {
      StepExtends(rules, n, s, a, s');
    }
  }

  /** How the server of a step moved, and what was kept for the rest. */
  ghost predicate Stepped(rules: Rules, n: nat, s: Cluster, s': Cluster, i: nat)
    requires n > 0 && |s.nodes| == n && i < n
  {
    && ElectionInv(rules, n, s') && LogInv(n, s') && AcksSound(n, s')
    && RoleMove(n, s, s', i) && LogMove(s, s', i) && AckMove(s, s', i) && Evolves(n, s, s')
    && (s'.nodes[i].role == Leader && s.nodes[i].role == Candidate ==> s.nodes[i].term !in s.reigns)
  }

  lemma StepIsMove(rules: Rules, n: nat, s: Cluster, a: Action, s': Cluster)
    requires ElectionInv(rules, n, s) && LogInv(n, s) && AcksSound(n, s) && Enabled(n, s, a) && n % 2 == 1
    requires (rules.keepVote || VotesAfresh(s, a)) && s' == Next(rules, n, s, a)
    ensures Stepped(rules, n, s, s', a.i)
  {
    LogKept(rules, n, s, a);
    StepMovesRole(rules, n, s, a);
    StepMovesLog(rules, n, s, a);
    StepMovesAcks(rules, n, s, a);
    NewReignIsFirst(rules, n, s, s', a.i);
    StepEvolves(n, s, s', a.i);
  }

  lemma ReignsCarryStep(rules: Rules, n: nat, s: Cluster, a: Action, s': Cluster)
    requires ElectionInv(rules, n, s) && LogInv(n, s) && CompletenessInv(n, s) && Enabled(n, s, a)
    requires s' == Next(rules, n, s, a) && Stepped(rules, n, s, s', a.i)
    ensures ReignsCarry(n, s')
  {
    if s'.nodes[a.i].role == Leader && s.nodes[a.i].role == Candidate {
      ElectedHasQuorum(rules, n, s, a, s');
      ElectedCarries(rules, n, s, a.i);
    }
    ReignsCarryKept(rules, n, s, s', a.i);
  }

  lemma LogsCarryStep(rules: Rules, n: nat, s: Cluster, a: Action, s': Cluster)
    requires ElectionInv(rules, n, s) && LogInv(n, s) && CompletenessInv(n, s) && Enabled(n, s, a) && LosesNoLog(s, a)
    requires s' == Next(rules, n, s, a) && Stepped(rules, n, s, s', a.i)
    ensures LogsCarry(n, s')
  {
    var m := AcceptsOrExtends(rules, n, s, a, s');
    LogsCarryKept(n, s, s', a.i, m);
  }

  lemma VotesCarryStep(rules: Rules, n: nat, s: Cluster, a: Action, s': Cluster)
    requires ElectionInv(rules, n, s) && LogInv(n, s) && CompletenessInv(n, s) && Enabled(n, s, a)
    requires s' == Next(rules, n, s, a) && Stepped(rules, n, s, s', a.i) && LogsCarry(n, s')
    ensures VotesCarry(n, s') && AsksSound(n, s')
  {
    forall v | v in s'.votes && v !in s.votes ensures NewVoteSound(n, s, s', a.i, v) {
      NewVotesSound(rules, n, s, a, v);
    }
    VotesCarryKept(rules, n, s, s', a.i);
    NewAsksSound(rules, n, s, a);
    AsksKept(rules, n, s, s', a.i);
  }

  /** One step keeps the completeness invariant. */
  lemma CompletenessKept(rules: Rules, n: nat, s: Cluster, a: Action)
    requires ElectionInv(rules, n, s) && LogInv(n, s) && CompletenessInv(n, s) && Enabled(n, s, a) && n % 2 == 1
    requires (rules.keepVote || VotesAfresh(s, a)) && LosesNoLog(s, a)
    ensures var s' := Next(rules, n, s, a);
            ElectionInv(rules, n, s') && LogInv(n, s') && CompletenessInv(n, s') && Evolves(n, s, s')
  {
    var s' := Next(rules, n, s, a);
    StepIsMove(rules, n, s, a, s');
    ReignsCarryStep(rules, n, s, a, s');
    LogsCarryStep(rules, n, s, a, s');
    VotesCarryStep(rules, n, s, a, s');
  }
}
