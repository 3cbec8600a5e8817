/** Election safety: over a whole run, at most one server ever leads a given term. */
module RaftElection {
  import opened Wrappers
  import opened RaftTypes
  import opened RaftSteps
  import opened RaftCluster
  import opened Sets

  ghost predicate Shape(n: nat, s: Cluster) {
    n > 0 && |s.nodes| == n && forall i :: 0 <= i < n ==> s.nodes[i].id == i
  }

  /** No server gave two votes in a term, and the vote it remembers is one it gave. */
  ghost predicate VotesSound(rules: Rules, n: nat, s: Cluster)
    requires |s.nodes| == n
  {
    && (forall v :: v in s.votes ==> v.voter < n && v.candidate < n && v.term <= s.nodes[v.voter].term)
    && (forall v, w :: v in s.votes && w in s.votes && v.term == w.term && v.voter == w.voter ==>
                         v.candidate == w.candidate)
    && (forall i :: 0 <= i < n && s.nodes[i].votedFor.Some? ==>
                      Vote(s.nodes[i].term, i, s.nodes[i].votedFor.value) in s.votes)
    && (rules.keepVote ==>
          forall v :: v in s.votes && v.term == s.nodes[v.voter].term ==>
                        s.nodes[v.voter].votedFor == Some(v.candidate))
  }

  ghost predicate BallotsSound(n: nat, s: Cluster)
    requires |s.nodes| == n
  {
    && (forall m :: m in s.sent && m.AskVote? ==>
                      m.req.candidate < n && m.req.term <= s.nodes[m.req.candidate].term)
    && (forall m :: m in s.sent && m.AnswerVote? && m.vote.granted ==>
                      m.voter != m.candidate && Vote(m.asked, m.voter, m.candidate) in s.votes)
  }

  /** What a candidate has counted are votes given to it, and it has not led its term. */
  ghost predicate TalliesSound(n: nat, s: Cluster)
    requires |s.nodes| == n
  {
    forall i :: 0 <= i < n && s.nodes[i].role == Candidate ==>
                  && s.nodes[i].term > 0 && Vote(s.nodes[i].term, i, i) in s.votes
                  && (forall p :: p in s.nodes[i].tally ==> p != i && Vote(s.nodes[i].term, p, i) in s.votes)
                  && (s.nodes[i].term in s.reigns ==> s.reigns[s.nodes[i].term].leader != i)
  }

  function Voters(s: Cluster, term: nat, candidate: nat): set<nat> {
    set v | v in s.votes && v.term == term && v.candidate == candidate :: v.voter
  }

  /** Every reign was voted for by a quorum. */
  ghost predicate ReignsElected(n: nat, s: Cluster)
    requires |s.nodes| == n > 0
  {
    forall t :: t in s.reigns ==>
                  && s.reigns[t].leader < n
                  && 0 < t <= s.nodes[s.reigns[t].leader].term
                  && |Voters(s, t, s.reigns[t].leader)| >= Majority(n)
  }

  /** A sitting leader's log is its reign's log. */
  ghost predicate LeadersReign(n: nat, s: Cluster)
    requires |s.nodes| == n
  {
    forall i :: 0 <= i < n && s.nodes[i].role == Leader ==>
                  s.nodes[i].term in s.reigns && s.reigns[s.nodes[i].term] == Reign(i, s.nodes[i].log)
  }

  ghost predicate ElectionInv(rules: Rules, n: nat, s: Cluster) {
    Shape(n, s) && VotesSound(rules, n, s) && BallotsSound(n, s) && TalliesSound(n, s)
    && ReignsElected(n, s) && LeadersReign(n, s)
  }

  lemma InitElection(rules: Rules, n: nat)
    requires n > 0
    ensures ElectionInv(rules, n, Init(n))
  {}

  lemma ShapeKept(rules: Rules, n: nat, s: Cluster, a: Action)
    requires Shape(n, s) && Enabled(n, s, a)
    ensures Shape(n, Next(rules, n, s, a))
  {
    KeepsId(rules, n, s.nodes[a.i], a);
  }

  lemma KeepsId(rules: Rules, n: nat, x: Node, a: Action)
    requires n > 0
    ensures Moved(rules, n, x, a).id == x.id
  {}

  /** How one step may change the vote a server remembers and the votes on record. */
  ghost predicate VoteMove(rules: Rules, n: nat, s: Cluster, s': Cluster, i: nat)
    requires |s.nodes| == n == |s'.nodes| && i < n
  {
    var x, y := s.nodes[i], s'.nodes[i];
    && s'.nodes == s.nodes[i := y]
    && x.term <= y.term
    && (|| (s'.votes == s.votes && y.votedFor == x.votedFor && y.term == x.term)
        || (s'.votes == s.votes && y.votedFor == None && (rules.keepVote ==> x.term < y.term))
        || (&& y.votedFor.Some? && y.votedFor.value < n
            && s'.votes == s.votes + {Vote(y.term, i, y.votedFor.value)}
            && forall v :: v in s.votes && v.term == y.term && v.voter == i ==> v.candidate == y.votedFor.value))
  }

  lemma NodeMovesVote(rules: Rules, n: nat, x: Node, a: Action)
    requires n > 0 && !a.ReceiveAskVote? && (a.Timeout? ==> x.role != Leader)
    ensures var y := Moved(rules, n, x, a);
            && x.term <= y.term
            && (if a.Timeout? then y.term == x.term + 1 && y.votedFor == Some(x.id)
                else || (y.votedFor == x.votedFor && y.term == x.term)
                     || (y.votedFor == None && (rules.keepVote ==> x.term < y.term)))
  {}

  /** A candidate's own vote is its first in the new term. */
  lemma OwnVoteMove(rules: Rules, n: nat, s: Cluster, s': Cluster, i: nat)
    requires |s.nodes| == n == |s'.nodes| && i < n && s'.nodes == s.nodes[i := s'.nodes[i]] && VotesSound(rules, n, s)
    requires s'.nodes[i].term == s.nodes[i].term + 1 && s'.nodes[i].votedFor == Some(i)
    requires s'.votes == s.votes + {Vote(s'.nodes[i].term, i, i)}
    ensures VoteMove(rules, n, s, s', i)
  {}

  lemma NoVoteMove(rules: Rules, n: nat, s: Cluster, s': Cluster, i: nat)
    requires |s.nodes| == n == |s'.nodes| && i < n && s'.nodes == s.nodes[i := s'.nodes[i]] && s'.votes == s.votes
    requires var x, y := s.nodes[i], s'.nodes[i];
             || (y.votedFor == x.votedFor && y.term == x.term)
             || (y.votedFor == None && x.term <= y.term && (rules.keepVote ==> x.term < y.term))
    ensures VoteMove(rules, n, s, s', i)
  {}

  lemma StepMovesVote(rules: Rules, n: nat, s: Cluster, a: Action, s': Cluster)
    requires Shape(n, s) && VotesSound(rules, n, s) && a.i < n && !a.ReceiveAskVote?
    requires (a.Timeout? ==> s.nodes[a.i].role != Leader) && s' == Next(rules, n, s, a)
    ensures VoteMove(rules, n, s, s', a.i)
  {
    NodeMovesVote(rules, n, s.nodes[a.i], a);
    if a.Timeout? {
      OwnVoteMove(rules, n, s, s', a.i);
    } else {
      NoVoteMove(rules, n, s, s', a.i);
    }
  }

  lemma AskMovesVote(rules: Rules, n: nat, s: Cluster, a: Action)
    requires Shape(n, s) && VotesSound(rules, n, s) && BallotsSound(n, s) && Enabled(n, s, a) && a.ReceiveAskVote?
    requires rules.keepVote || VotesAfresh(s, a)
    ensures VoteMove(rules, n, s, Next(rules, n, s, a), a.i)
  {
    forall v | v in s.votes && v.term == a.ask.term && v.voter == a.i
        && HandleVoteRequest(s.nodes[a.i], a.ask).1.granted
      ensures v.candidate == a.ask.candidate
    {
      assert v == Vote(a.ask.term, a.i, v.candidate);
    }
  }

  lemma VoteMoveKeeps(rules: Rules, n: nat, s: Cluster, s': Cluster, i: nat)
    requires |s.nodes| == n == |s'.nodes| && i < n
    requires VotesSound(rules, n, s) && VoteMove(rules, n, s, s', i)
    ensures VotesSound(rules, n, s')
  {}

  lemma VotesKept(rules: Rules, n: nat, s: Cluster, a: Action)
    requires Shape(n, s) && VotesSound(rules, n, s) && BallotsSound(n, s) && Enabled(n, s, a)
    requires rules.keepVote || VotesAfresh(s, a)
    ensures VotesSound(rules, n, Next(rules, n, s, a))
  {
    if a.ReceiveAskVote? {
      AskMovesVote(rules, n, s, a);
    } else {
      StepMovesVote(rules, n, s, a, Next(rules, n, s, a));
    }
    VoteMoveKeeps(rules, n, s, Next(rules, n, s, a), a.i);
  }

  lemma NewBallot(rules: Rules, n: nat, s: Cluster, a: Action, m: Message)
    requires Shape(n, s) && Enabled(n, s, a) && m in Outgoing(rules, s.nodes[a.i], a)
    ensures m.AskVote? ==> m.req.candidate == a.i && m.req.term == s.nodes[a.i].term
    ensures m.AnswerVote? && m.vote.granted ==>
              m.voter != m.candidate && Vote(m.asked, m.voter, m.candidate) in Cast(s.nodes[a.i], a)
  {}

  lemma BallotsMoved(n: nat, s: Cluster, s': Cluster, i: nat, added: set<Message>, cast: set<Vote>)
    requires |s.nodes| == n == |s'.nodes| && i < n && BallotsSound(n, s)
    requires s'.sent == s.sent + added && s'.votes == s.votes + cast
    requires forall j :: 0 <= j < n ==> s.nodes[j].term <= s'.nodes[j].term
    requires forall m :: m in added && m.AskVote? ==> m.req.candidate == i && m.req.term == s.nodes[i].term
    requires forall m :: m in added && m.AnswerVote? && m.vote.granted ==>
                           m.voter != m.candidate && Vote(m.asked, m.voter, m.candidate) in cast
    ensures BallotsSound(n, s')
  {}

  lemma BallotsKept(rules: Rules, n: nat, s: Cluster, a: Action)
    requires Shape(n, s) && BallotsSound(n, s) && Enabled(n, s, a)
    ensures BallotsSound(n, Next(rules, n, s, a))
  {
    var s' := Next(rules, n, s, a);
    forall j: nat | j < n ensures s.nodes[j].term <= s'.nodes[j].term { TermsRise(rules, n, s, a, j); }
    forall m | m in Outgoing(rules, s.nodes[a.i], a)
      ensures m.AskVote? ==> m.req.candidate == a.i && m.req.term == s.nodes[a.i].term
      ensures m.AnswerVote? && m.vote.granted ==>
                m.voter != m.candidate && Vote(m.asked, m.voter, m.candidate) in Cast(s.nodes[a.i], a)
    {
      NewBallot(rules, n, s, a, m);
    }
    BallotsMoved(n, s, s', a.i, Outgoing(rules, s.nodes[a.i], a), Cast(s.nodes[a.i], a));
  }

  /** How a step may move the acting server's role: what a candidate counts and what makes a leader. */
  ghost predicate RoleMove(n: nat, s: Cluster, s': Cluster, i: nat)
    requires |s.nodes| == n == |s'.nodes| && i < n && n > 0
  {
    var x, y := s.nodes[i], s'.nodes[i];
    && s'.nodes == s.nodes[i := y] && x.term <= y.term
    && s.votes <= s'.votes && s'.reigns == Crowned(s.reigns, i, y)
    && (match y.role
        case Follower => true
        case Candidate =>
          || (x.term < y.term && y.tally == {} && Vote(y.term, i, i) in s'.votes)
          || (&& x.role == Candidate && y.term == x.term
              && forall p :: p in y.tally && p !in x.tally ==> p != i && Vote(y.term, p, i) in s'.votes)
        case Leader =>
          || (x.role == Leader && y.term == x.term)
          || (&& x.role == Candidate && y.term == x.term && 1 + |y.tally| >= Majority(n)
              && forall p :: p in y.tally && p !in x.tally ==> p != i && Vote(y.term, p, i) in s'.votes))
  }

  /** The server steps down, or stays what it was in its term. */
  predicate StaysOrFollows(x: Node, y: Node) {
    x.term <= y.term && (y.role == Follower || (y.role == x.role && y.term == x.term && y.tally == x.tally))
  }

  lemma VoterMoves(x: Node, ask: VoteRequest)
    ensures StaysOrFollows(x, HandleVoteRequest(x, ask).0)
  {}

  lemma ReceiverMoves(rules: Rules, x: Node, req: AppendRequest)
    ensures StaysOrFollows(x, HandleAppend(rules, x, req).0)
  {}

  lemma AnswerKeepsRole(n: nat, x: Node, peer: nat, req: AppendRequest, resp: AppendResponse)
    requires n > 0
    ensures StaysOrFollows(x, HandleAppendResponse(n, x, peer, req, resp))
  {}

  lemma CounterMoves(n: nat, x: Node, asked: nat, voter: nat, vote: VoteResponse)
    requires n > 0
    ensures var y := CountVote(n, x, asked, voter, vote);
            && x.term <= y.term
            && (y.role != Follower ==>
                  && x.role != Follower && y.term == x.term && (x.role == Leader ==> y.role == Leader)
                  && ((asked == x.term && vote.granted) || y.tally == x.tally) && y.tally <= x.tally + {voter}
                  && (y.role == Leader && x.role == Candidate ==> 1 + |y.tally| >= Majority(n) && y.log == x.log))
  {}

  lemma NodeMovesRole(rules: Rules, n: nat, x: Node, a: Action)
    requires n > 0
    ensures var y := Moved(rules, n, x, a);
            && x.term <= y.term
            && (a.Timeout? && x.role != Leader ==> y.role == Candidate && y.term == x.term + 1 && y.tally == {})
            && (!a.Timeout? && y.role != Follower ==>
                  && x.role != Follower && y.term == x.term
                  && ((a.ReceiveVote? && a.asked == x.term && a.vote.granted) || y.tally == x.tally)
                  && (x.role == Leader ==> y.role == Leader)
                  && y.tally <= x.tally + (if a.ReceiveVote? then {a.voter} else {})
                  && (y.role == Leader && x.role == Candidate ==> 1 + |y.tally| >= Majority(n) && y.log == x.log))
  {
    match a
    case ReceiveAskVote(_, ask) => VoterMoves(x, ask);
    case ReceiveVote(_, asked, voter, vote) => CounterMoves(n, x, asked, voter, vote);
    case ReceiveAppend(_, req) => ReceiverMoves(rules, x, req);
    case ReceiveAnswer(_, peer, req, resp) => AnswerKeepsRole(n, x, peer, req, resp);
    case _ =>
  }

  /** A granted vote a candidate hears of was cast for it by another server. */
  lemma HeardVote(n: nat, s: Cluster, a: Action)
    requires |s.nodes| == n && BallotsSound(n, s) && Enabled(n, s, a) && a.ReceiveVote? && a.vote.granted
    ensures a.voter != a.i && Vote(a.asked, a.voter, a.i) in s.votes
  {}

  lemma RoleMoves(rules: Rules, n: nat, s: Cluster, s': Cluster, a: Action)
    requires |s.nodes| == n > 0 && a.i < n && (a.Timeout? ==> s.nodes[a.i].role != Leader)
    requires a.ReceiveVote? && a.vote.granted ==> a.voter != a.i && Vote(a.asked, a.voter, a.i) in s.votes
    requires var y := Moved(rules, n, s.nodes[a.i], a);
             s'.nodes == s.nodes[a.i := y] && s'.votes == s.votes + Cast(s.nodes[a.i], a)
                 && s'.reigns == Crowned(s.reigns, a.i, y)
    ensures RoleMove(n, s, s', a.i)
  {
    var x, y := s.nodes[a.i], s'.nodes[a.i];
    NodeMovesRole(rules, n, x, a);
    if a.Timeout? {
      assert Vote(x.term + 1, a.i, a.i) in s'.votes;
    } else if y.role != Follower && !(a.ReceiveVote? && a.asked == x.term && a.vote.granted) {
      assert y.tally == x.tally;
    }
  }

  lemma StepMovesRole(rules: Rules, n: nat, s: Cluster, a: Action)
    requires Shape(n, s) && BallotsSound(n, s) && Enabled(n, s, a)
    ensures RoleMove(n, s, Next(rules, n, s, a), a.i)
  {
    if a.ReceiveVote? && a.vote.granted { HeardVote(n, s, a); }
    RoleMoves(rules, n, s, Next(rules, n, s, a), a);
  }

  lemma TalliesKept(n: nat, s: Cluster, s': Cluster, i: nat)
    requires |s.nodes| == n == |s'.nodes| && i < n && TalliesSound(n, s) && ReignsElected(n, s) && n > 0
    requires RoleMove(n, s, s', i)
    ensures TalliesSound(n, s')
  {}

  lemma TermsRise(rules: Rules, n: nat, s: Cluster, a: Action, i: nat)
    requires |s.nodes| == n && a.i < n && i < n
    ensures s.nodes[i].term <= Next(rules, n, s, a).nodes[i].term
  {
    NodeMovesRole(rules, n, s.nodes[a.i], a);
  }

  lemma VotersAreServers(rules: Rules, n: nat, s: Cluster, t: nat, c: nat)
    requires |s.nodes| == n && VotesSound(rules, n, s)
    ensures Voters(s, t, c) <= Ids(n)
  {}

  /** Two candidates of one term cannot both gather a quorum. */
  lemma OneWinner(rules: Rules, n: nat, s: Cluster, t: nat, b: nat, c: nat)
    requires Shape(n, s) && VotesSound(rules, n, s) && n % 2 == 1
    requires |Voters(s, t, b)| >= Majority(n) && |Voters(s, t, c)| >= Majority(n)
    ensures b == c
  {
    VotersAreServers(rules, n, s, t, b);
    VotersAreServers(rules, n, s, t, c);
    SharedMember(n, Voters(s, t, b), Voters(s, t, c));
    var v :| v in Voters(s, t, b) * Voters(s, t, c);
    assert Vote(t, v, b) in s.votes && Vote(t, v, c) in s.votes;
  }

  lemma WinnerHasQuorum(n: nat, s: Cluster, s': Cluster, i: nat)
    requires |s.nodes| == n == |s'.nodes| && i < n && TalliesSound(n, s) && RoleMove(n, s, s', i)
    requires s'.nodes[i].role == Leader && s.nodes[i].role == Candidate
    ensures |Voters(s', s.nodes[i].term, i)| >= Majority(n)
  {
    var t, tally := s.nodes[i].term, s'.nodes[i].tally;
    forall p | p in tally + {i} ensures p in Voters(s', t, i) { assert Vote(t, p, i) in s'.votes; }
    SubsetSize(tally + {i}, Voters(s', t, i));
  }

  /** The server whose tally reaches the threshold is the first to win its term. */
  lemma WinnerIsFirst(rules: Rules, n: nat, s: Cluster, s': Cluster, i: nat, t: nat)
    requires |s.nodes| == n > 0 && ReignsElected(n, s) && Shape(n, s') && VotesSound(rules, n, s') && n % 2 == 1
    requires s.votes <= s'.votes && |Voters(s', t, i)| >= Majority(n)
    ensures t in s.reigns ==> s.reigns[t].leader == i
  {
    if t in s.reigns {
      var l := s.reigns[t].leader;
      SubsetSize(Voters(s, t, l), Voters(s', t, l));
      OneWinner(rules, n, s', t, l, i);
    }
  }

  lemma NewReignIsFirst(rules: Rules, n: nat, s: Cluster, s': Cluster, i: nat)
    requires Shape(n, s) && TalliesSound(n, s) && ReignsElected(n, s) && n % 2 == 1 && i < n
    requires Shape(n, s') && VotesSound(rules, n, s') && RoleMove(n, s, s', i)
    ensures s'.nodes[i].role == Leader && s.nodes[i].role == Candidate ==>
              s.nodes[i].term !in s.reigns && |Voters(s', s.nodes[i].term, i)| >= Majority(n)
  {
    if s'.nodes[i].role == Leader && s.nodes[i].role == Candidate {
      WinnerHasQuorum(n, s, s', i);
      WinnerIsFirst(rules, n, s, s', i, s.nodes[i].term);
    }
  }

  lemma VotersGrow(s: Cluster, s': Cluster)
    requires s.votes <= s'.votes
    ensures forall t, c :: |Voters(s, t, c)| <= |Voters(s', t, c)|
  {
    forall t, c ensures |Voters(s, t, c)| <= |Voters(s', t, c)| {
      SubsetSize(Voters(s, t, c), Voters(s', t, c));
    }
  }

  lemma ReignsElectedKept(n: nat, s: Cluster, s': Cluster, i: nat)
    requires Shape(n, s) && Shape(n, s') && TalliesSound(n, s) && ReignsElected(n, s) && LeadersReign(n, s)
    requires i < n && RoleMove(n, s, s', i)
    requires s'.nodes[i].role == Leader && s.nodes[i].role == Candidate ==>
               |Voters(s', s.nodes[i].term, i)| >= Majority(n)
    ensures ReignsElected(n, s')
  {
    VotersGrow(s, s');
  }

  lemma LeadersReignKept(n: nat, s: Cluster, s': Cluster, i: nat)
    requires Shape(n, s) && Shape(n, s') && ReignsElected(n, s) && LeadersReign(n, s) && i < n && RoleMove(n, s, s', i)
    requires s'.nodes[i].role == Leader && s.nodes[i].role == Candidate ==> s.nodes[i].term !in s.reigns
    ensures LeadersReign(n, s')
  {}

  /** One step keeps the election invariant, if votes are kept or this one is given afresh. */
  lemma ElectionKept(rules: Rules, n: nat, s: Cluster, a: Action)
    requires ElectionInv(rules, n, s) && Enabled(n, s, a) && n % 2 == 1
    requires rules.keepVote || VotesAfresh(s, a)
    ensures ElectionInv(rules, n, Next(rules, n, s, a))
  {
    var s' := Next(rules, n, s, a);
    ShapeKept(rules, n, s, a);
    VotesKept(rules, n, s, a);
    BallotsKept(rules, n, s, a);
    StepMovesRole(rules, n, s, a);
    TalliesKept(n, s, s', a.i);
    NewReignIsFirst(rules, n, s, s', a.i);
    ReignsElectedKept(n, s, s', a.i);
    LeadersReignKept(n, s, s', a.i);
  }
}
