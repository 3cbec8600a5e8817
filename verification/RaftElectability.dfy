/** Elections can always be won: every majority has a server that the whole of it will elect. */
module RaftElectability {
  import opened Wrappers
  import opened RaftTypes
  import opened RaftSteps
  import opened RaftCluster
  import opened RaftElection
  import opened RaftSafety
  import opened RaftRuns
  import opened Sets

  // ----- which log is up to date -----

  /** A server with log x grants its vote to a candidate with log z, as far as the logs go. */
  predicate Favours(x: Log, z: Log) {
    UpToDate(x, LastIndex(z), LastTerm(z))
  }

  /** The order of the logs: of any two, one is up to date for the other; both are if and only if they end alike; and
      what is up to date for a log is so for every log that one is up to date for. */
  lemma FavoursOrders(x: Log, y: Log, z: Log)
    ensures Favours(x, y) || Favours(y, x)
    ensures Favours(x, y) && Favours(y, x) <==> LastTerm(x) == LastTerm(y) && LastIndex(x) == LastIndex(y)
    ensures Favours(x, y) && Favours(y, z) ==> Favours(x, z)
  {}

  ghost predicate Newest(s: Cluster, q: set<nat>, c: nat) {
    c in q && forall v :: v in q ==> v < |s.nodes| && c < |s.nodes| && Favours(s.nodes[v].log, s.nodes[c].log)
  }

  lemma {:induction false} NewestExists(s: Cluster, q: set<nat>) returns (c: nat)
    requires q != {} && forall v :: v in q ==> v < |s.nodes|
    ensures Newest(s, q, c)
  {
    var d :| d in q;
    c := d;
    if q != {d} {
      c := NewestExists(s, q - {d});
      var x, y := s.nodes[d].log, s.nodes[c].log;
      FavoursOrders(x, y, y);
      if !Favours(x, y) {
        forall v | v in q ensures Favours(s.nodes[v].log, x) {
          FavoursOrders(s.nodes[v].log, y, x);
          FavoursOrders(x, x, x);
        }
        c := d;
      }
    }
  }

  // ----- runs that go on from a state -----

  /** The actions, all of servers of the group and none of them a restart, lead from the one state to the other. */
  ghost predicate Leads(rules: Rules, n: nat, q: set<nat>, s: Cluster, acts: seq<Action>, s': Cluster) {
    if acts == [] then s' == s else
    var a := acts[|acts| - 1];
    exists mid :: Leads(rules, n, q, s, acts[..|acts| - 1], mid)
        && |mid.nodes| == n && a.i in q && Enabled(n, mid, a) && !a.Crash? && s' == Next(rules, n, mid, a)
  }

  ghost predicate LeadsTo(rules: Rules, n: nat, q: set<nat>, s: Cluster, s': Cluster) {
    exists acts :: Leads(rules, n, q, s, acts, s')
  }

  /** A set of states that no step of a server of the group leaves, but for restarts. */
  ghost predicate ClosedFor(rules: Rules, n: nat, r: iset<Cluster>, q: set<nat>) {
    forall s, a: Action {:trigger Next(rules, n, s, a)} ::
      s in r && |s.nodes| == n && a.i in q && Enabled(n, s, a) && !a.Crash? ==> Next(rules, n, s, a) in r
  }

  lemma LeadsOn(rules: Rules, n: nat, q: set<nat>, s: Cluster, t: Cluster, a: Action, s': Cluster)
    requires LeadsTo(rules, n, q, s, t) && |t.nodes| == n && a.i in q && Enabled(n, t, a) && !a.Crash?
    requires s' == Next(rules, n, t, a)
    ensures LeadsTo(rules, n, q, s, s')
  {
    var acts :| Leads(rules, n, q, s, acts, t);
    var more := acts + [a];
    assert more[..|more| - 1] == acts && more[|more| - 1] == a;
    assert Leads(rules, n, q, s, more, s');
  }

  lemma LeadsClosed(rules: Rules, n: nat, q: set<nat>, s: Cluster) returns (r: iset<Cluster>)
    ensures ClosedFor(rules, n, r, q) && s in r && forall t :: t in r ==> LeadsTo(rules, n, q, s, t)
  {
    r := iset t | LeadsTo(rules, n, q, s, t);
    assert Leads(rules, n, q, s, [], s);
    forall t, a: Action | t in r && |t.nodes| == n && a.i in q && Enabled(n, t, a) && !a.Crash?
      ensures Next(rules, n, t, a) in r
    {
      LeadsOn(rules, n, q, s, t, a, Next(rules, n, t, a));
    }
  }

  /** A server of the group takes one step. */
  lemma Act(rules: Rules, n: nat, r: iset<Cluster>, q: set<nat>, s: Cluster, a: Action) returns (s': Cluster)
    requires ClosedFor(rules, n, r, q) && s in r && |s.nodes| == n && a.i in q && Enabled(n, s, a) && !a.Crash?
    ensures s' in r && |s'.nodes| == n && s'.sent == s.sent + Outgoing(rules, s.nodes[a.i], a)
    ensures s'.nodes == s.nodes[a.i := Moved(rules, n, s.nodes[a.i], a)]
  {
    s' := Next(rules, n, s, a);
  }

  lemma {:induction false} RunShape(rules: Rules, n: nat, ss: seq<Cluster>, acts: seq<Action>, k: nat)
    requires Run(rules, n, ss, acts) && k < |ss|
    ensures Shape(n, ss[k])
  {
    if k > 0 {
      RunShape(rules, n, ss, acts, k - 1);
      ShapeKept(rules, n, ss[k - 1], acts[k - 1]);
    }
  }

  /** No server has lost or changed its log, and those outside the group have not moved at all. */
  ghost predicate Spared(n: nat, s: Cluster, s': Cluster, q: set<nat>) {
    && |s.nodes| == n == |s'.nodes| && s.sent <= s'.sent
    && forall u :: 0 <= u < n ==>
                     && s'.nodes[u].id == s.nodes[u].id && s'.nodes[u].log == s.nodes[u].log
                     && (u !in q ==> s'.nodes[u] == s.nodes[u])
  }

  // ----- making a server stand -----

  /** Server c has run for a term above t. */
  ghost predicate Stood(n: nat, s: Cluster, s': Cluster, c: nat, t: nat) {
    && Spared(n, s, s', {c}) && c < n && s'.nodes == s.nodes[c := s'.nodes[c]]
    && s'.nodes[c].role == Candidate && s'.nodes[c].term > t && s'.nodes[c].votedFor == Some(c)
    && s'.nodes[c].tally == {} && s'.nodes[c].term > s.nodes[c].term
  }

  /** Server c times out until its term is above t. */
  lemma {:induction false} TimesOut(rules: Rules, n: nat, r: iset<Cluster>, q: set<nat>, s: Cluster, c: nat, t: nat)
    returns (s': Cluster)
    requires ClosedFor(rules, n, r, q) && s in r && Shape(n, s) && c < n && c in q && s.nodes[c].role != Leader
    ensures s' in r && Stood(n, s, s', c, t)
    decreases t - s.nodes[c].term
  {
    s' := Act(rules, n, r, q, s, Timeout(c));
    if s'.nodes[c].term <= t {
      s' := TimesOut(rules, n, r, q, s', c, t);
    }
  }

  function AskOf(x: Node): VoteRequest {
    VoteRequest(x.term, x.id, LastIndex(x.log), LastTerm(x.log))
  }

  lemma Stands(rules: Rules, n: nat, r: iset<Cluster>, q: set<nat>, s: Cluster, c: nat, t: nat) returns (s': Cluster)
    requires ClosedFor(rules, n, r, q) && s in r && Shape(n, s) && c < n && c in q && s.nodes[c].role != Leader
    ensures s' in r && Stood(n, s, s', c, t) && AskVote(AskOf(s'.nodes[c])) in s'.sent
  {
    s' := TimesOut(rules, n, r, q, s, c, t);
    s' := Act(rules, n, r, q, s', Campaign(c));
  }

  // ----- making a leader step down -----

  lemma OlderSteps(x: Node, req: VoteRequest)
    requires x.term < req.term
    ensures var y := HandleVoteRequest(x, req).0; y.role == Follower && y.log == x.log && y.id == x.id
  {}

  /** A leader steps down when another server runs for a later term. */
  lemma OutvotedBy(rules: Rules, n: nat, r: iset<Cluster>, q: set<nat>, s: Cluster, c: nat, d: nat)
    returns (s': Cluster)
    requires ClosedFor(rules, n, r, q) && s in r && Shape(n, s) && c < n && d < n && d != c && s.nodes[d].role != Leader
    requires c in q && d in q
    ensures s' in r && Spared(n, s, s', {c, d}) && s'.nodes[c].role == Follower
  {
    s' := Stands(rules, n, r, q, s, d, s.nodes[c].term);
    OlderSteps(s'.nodes[c], AskOf(s'.nodes[d]));
    s' := Act(rules, n, r, q, s', ReceiveAskVote(c, AskOf(s'.nodes[d])));
  }

  lemma HeartbeatHeard(rules: Rules, x: Node, req: AppendRequest)
    requires req.entries == [] && x.term <= req.term
    ensures var y := HandleAppend(rules, x, req).0; y.role == Follower && y.log == x.log && y.id == x.id
  {}

  /** A leader steps down when it hears from a leader of a later term, or of its own. */
  lemma HeardFrom(rules: Rules, n: nat, r: iset<Cluster>, q: set<nat>, s: Cluster, c: nat, d: nat) returns (s': Cluster)
    requires ClosedFor(rules, n, r, q) && s in r && Shape(n, s) && c < n && d < n && d != c && c in q && d in q
    requires s.nodes[d].role == Leader && s.nodes[c].term <= s.nodes[d].term
    ensures s' in r && Spared(n, s, s', {c}) && s'.nodes[c].role == Follower
  {
    var req := HeartbeatRequest(s.nodes[d], c);
    HeartbeatHeard(rules, s.nodes[c], req);
    s' := Act(rules, n, r, q, s, Heartbeat(d, c));
    s' := Act(rules, n, r, q, s', ReceiveAppend(c, req));
  }

  /** Whatever two servers are doing, between them they can make the first step down. */
  lemma StepsDown(rules: Rules, n: nat, r: iset<Cluster>, q: set<nat>, s: Cluster, c: nat, d: nat) returns (s': Cluster)
    requires ClosedFor(rules, n, r, q) && s in r && Shape(n, s) && c < n && d < n && d != c && c in q && d in q
    ensures s' in r && Spared(n, s, s', {c, d}) && s'.nodes[c].role != Leader
  {
    if s.nodes[d].role != Leader {
      s' := OutvotedBy(rules, n, r, q, s, c, d);
    } else if s.nodes[c].term <= s.nodes[d].term {
      s' := HeardFrom(rules, n, r, q, s, c, d);
    } else if s.nodes[c].role == Leader {
      s' := HeardFrom(rules, n, r, q, s, d, c);
      s' := OutvotedBy(rules, n, r, q, s', c, d);
    } else {
      s' := s;
    }
  }

  // ----- the vote -----

  /** A leader about to send every peer what comes after its log. */
  predicate Primed(n: nat, x: Node) {
    forall p :: p in Peers(n, x.id) ==> Lookup(x.nextIndex, p) == LastIndex(x.log) + 1
  }

  /** Server c, once the answers of these servers are counted. */
  ghost predicate Counted(n: nat, x: Node, y: Node, counted: set<nat>)
    requires n > 0
  {
    && y.id == x.id && y.log == x.log && y.term == x.term && y.votedFor == Some(x.id)
    && (if counted != {} && 1 + |counted| >= Majority(n) then y.role == Leader && Primed(n, y)
        else y.role == Candidate && y.tally == counted)
  }

  lemma CountsOne(n: nat, x: Node, y: Node, counted: set<nat>, v: nat)
    requires n > 0 && Counted(n, x, y, counted) && v !in counted
    ensures Counted(n, x, CountVote(n, y, x.term, v, VoteResponse(x.term, true)), counted + {v})
  {
    assert |counted + {v}| == |counted| + 1;
  }

  lemma Grants(x: Node, req: VoteRequest)
    requires x.term < req.term && UpToDate(x.log, req.lastIndex, req.lastTerm)
    ensures var (y, resp) := HandleVoteRequest(x, req);
            && resp == VoteResponse(req.term, true)
            && y == x.(term := req.term, role := Follower, votedFor := Some(req.candidate))
  {}

  /** The server has given its vote to candidate c in term t. */
  predicate VotedFor(x: Node, y: Node, c: nat, t: nat) {
    y == x.(term := t, role := Follower, votedFor := Some(c))
  }

  /** Candidate c has asked, and these servers have voted for it. */
  ghost predicate Polled(n: nat, s: Cluster, s': Cluster, c: nat, counted: set<nat>)
    requires n > 0
  {
    && |s.nodes| == n == |s'.nodes| && c < n && s.sent <= s'.sent && Counted(n, s.nodes[c], s'.nodes[c], counted)
    && forall u :: 0 <= u < n && u != c ==>
                     if u in counted then VotedFor(s.nodes[u], s'.nodes[u], c, s.nodes[c].term)
                     else s'.nodes[u] == s.nodes[u]
  }

  /** The servers will vote for c. */
  ghost predicate Ready(n: nat, s: Cluster, c: nat, voters: set<nat>) {
    && |s.nodes| == n && c < n && s.nodes[c].id == c && AskVote(AskOf(s.nodes[c])) in s.sent && c !in voters
    && forall v :: v in voters ==>
                     v < n && s.nodes[v].term < s.nodes[c].term && Favours(s.nodes[v].log, s.nodes[c].log)
  }

  lemma PolledOneMore(n: nat, s: Cluster, mid: Cluster, s': Cluster, c: nat, counted: set<nat>, v: nat)
    requires n > 0 && Polled(n, s, mid, c, counted) && v < n && v != c && |s'.nodes| == n && mid.sent <= s'.sent
    requires s'.nodes == mid.nodes[v := s'.nodes[v]][c := s'.nodes[c]]
    requires VotedFor(s.nodes[v], s'.nodes[v], c, s.nodes[c].term)
    requires Counted(n, s.nodes[c], s'.nodes[c], counted + {v})
    ensures Polled(n, s, s', c, counted + {v})
  {}

  lemma PollsOne(rules: Rules, n: nat, r: iset<Cluster>, q: set<nat>, s: Cluster, mid: Cluster, c: nat,
                 voters: set<nat>, counted: set<nat>, v: nat) returns (s': Cluster)
    requires n > 0 && ClosedFor(rules, n, r, q) && mid in r && v in voters && v !in counted && Ready(n, s, c, voters)
    requires Polled(n, s, mid, c, counted) && c in q && voters <= q
    ensures s' in r && Polled(n, s, s', c, counted + {v})
  {
    var req := AskOf(s.nodes[c]);
    Grants(s.nodes[v], req);
    s' := Act(rules, n, r, q, mid, ReceiveAskVote(v, req));
    CountsOne(n, s.nodes[c], mid.nodes[c], counted, v);
    s' := Act(rules, n, r, q, s', ReceiveVote(c, req.term, v, VoteResponse(req.term, true)));
    PolledOneMore(n, s, mid, s', c, counted, v);
  }

  lemma {:induction false} PollsAll(rules: Rules, n: nat, r: iset<Cluster>, q: set<nat>, s: Cluster, mid: Cluster,
                                    c: nat, voters: set<nat>, counted: set<nat>) returns (s': Cluster)
    requires n > 0 && ClosedFor(rules, n, r, q) && mid in r && Ready(n, s, c, voters)
    requires Polled(n, s, mid, c, counted) && counted <= voters <= q && c in q
    ensures s' in r && Polled(n, s, s', c, voters)
    decreases voters - counted
  {
    if v :| v in voters && v !in counted {
      var next := PollsOne(rules, n, r, q, s, mid, c, voters, counted, v);
      assert v in voters - counted && v !in voters - (counted + {v});
      s' := PollsAll(rules, n, r, q, s, next, c, voters, counted + {v});
    } else {
      assert counted == voters;
      s' := mid;
    }
  }

  // ----- the election -----

  /** Server c leads a term above t, and all of the group voted for it. */
  ghost predicate Ruling(n: nat, s: Cluster, q: set<nat>, c: nat, t: nat) {
    && |s.nodes| == n && c < n && s.nodes[c].role == Leader && s.nodes[c].term > t && Primed(n, s.nodes[c])
    && forall v :: v in q ==> v < n && s.nodes[v].term == s.nodes[c].term && s.nodes[v].votedFor == Some(c)
  }

  /** Server c of the group leads a term above all of theirs, all of them voted for it, and no log has changed. */
  ghost predicate ElectedBy(n: nat, s: Cluster, s': Cluster, q: set<nat>, c: nat) {
    && Spared(n, s, s', q) && c in q && c < n && s'.nodes[c].role == Leader && Primed(n, s'.nodes[c])
    && forall v :: v in q ==>
                     && v < n && s.nodes[v].term < s'.nodes[c].term == s'.nodes[v].term
                     && s'.nodes[v].votedFor == Some(c)
  }

  function HighestTerm(nodes: seq<Node>): (t: nat)
    ensures forall x :: x in nodes ==> x.term <= t
  {
    if nodes == [] then 0 else
    var t := HighestTerm(nodes[1..]);
    assert nodes == [nodes[0]] + nodes[1..];
    if t < nodes[0].term then nodes[0].term else t
  }

  lemma TermsBelow(s: Cluster, mid: Cluster, t: nat)
    requires t == HighestTerm(s.nodes + mid.nodes)
    ensures forall u :: 0 <= u < |s.nodes| ==> s.nodes[u].term <= t
    ensures forall u :: 0 <= u < |mid.nodes| ==> mid.nodes[u].term <= t
  {
    forall u | 0 <= u < |s.nodes| ensures s.nodes[u].term <= t { assert s.nodes[u] in s.nodes + mid.nodes; }
    forall u | 0 <= u < |mid.nodes| ensures mid.nodes[u].term <= t { assert mid.nodes[u] in s.nodes + mid.nodes; }
  }

  lemma SparedTwice(n: nat, s: Cluster, mid: Cluster, s': Cluster, p: set<nat>, q: set<nat>)
    requires Spared(n, s, mid, p) && Spared(n, mid, s', q)
    ensures Spared(n, s, s', p + q)
  {}

  lemma PolledRules(n: nat, s: Cluster, s': Cluster, c: nat, q: set<nat>, t: nat)
    requires n > 0 && Polled(n, s, s', c, q - {c}) && c in q && |q| > 1 && |q| >= Majority(n)
    requires s.nodes[c].id == c && s.nodes[c].term > t && forall v :: v in q ==> v < n
    ensures Spared(n, s, s', q) && Ruling(n, s', q, c, t)
  {
    assert |q - {c}| == |q| - 1 && q - {c} != {};
    assert forall v :: v in q ==> v == c || v in q - {c};
  }

  lemma ReadyToVote(n: nat, s: Cluster, mid: Cluster, q: set<nat>, c: nat, t: nat)
    requires Shape(n, s) && Newest(s, q, c) && (forall v :: v in q ==> v < n && s.nodes[v].term <= t)
    requires Stood(n, s, mid, c, t) && AskVote(AskOf(mid.nodes[c])) in mid.sent
    ensures Ready(n, mid, c, q - {c}) && Polled(n, mid, mid, c, {})
  {}

  /** A server that is not a leader and has the newest log of a majority is elected by all of it. */
  lemma NewestWins(rules: Rules, n: nat, r: iset<Cluster>, q: set<nat>, s: Cluster, c: nat, t: nat)
    returns (s': Cluster)
    requires ClosedFor(rules, n, r, q) && s in r && Shape(n, s) && |q| > 1 && |q| >= Majority(n)
    requires Newest(s, q, c) && s.nodes[c].role != Leader && forall v :: v in q ==> v < n && s.nodes[v].term <= t
    ensures s' in r && Spared(n, s, s', q) && Ruling(n, s', q, c, t)
  {
    var mid := Stands(rules, n, r, q, s, c, t);
    var voters := q - {c};
    ReadyToVote(n, s, mid, q, c, t);
    s' := PollsAll(rules, n, r, q, mid, mid, c, voters, {});
    PolledRules(n, mid, s', c, q, t);
    SparedTwice(n, s, mid, s', {c}, q);
    assert {c} + q == q;
  }

  lemma NewestKept(n: nat, s: Cluster, s': Cluster, q: set<nat>, c: nat)
    requires Shape(n, s) && Newest(s, q, c) && Spared(n, s, s', q)
    ensures Newest(s', q, c) && Shape(n, s')
  {}

  lemma SparedMore(n: nat, s: Cluster, s': Cluster, p: set<nat>, q: set<nat>)
    requires Spared(n, s, s', p) && p <= q
    ensures Spared(n, s, s', q)
  {}

  /** The server of the group with the newest log is made to step down if it leads. */
  lemma NewestStepsDown(rules: Rules, n: nat, r: iset<Cluster>, q: set<nat>, s: Cluster) returns (s': Cluster, c: nat)
    requires ClosedFor(rules, n, r, q) && s in r && Shape(n, s) && q <= Ids(n) && |q| > 1
    ensures s' in r && Shape(n, s') && Spared(n, s, s', q) && Newest(s', q, c) && s'.nodes[c].role != Leader
  {
    c := NewestExists(s, q);
    var d := Another(q, c);
    s' := StepsDown(rules, n, r, q, s, c, d);
    SparedMore(n, s, s', {c, d}, q);
    NewestKept(n, s, s', q, c);
  }

  lemma RulingElected(n: nat, s: Cluster, mid: Cluster, s': Cluster, q: set<nat>, c: nat, t: nat)
    requires Spared(n, s, mid, q) && Spared(n, mid, s', q) && c in q && Ruling(n, s', q, c, t)
    requires forall u :: 0 <= u < n ==> s.nodes[u].term <= t
    ensures ElectedBy(n, s, s', q, c)
  {
    SparedTwice(n, s, mid, s', q, q);
    assert q + q == q;
  }

  /** From any state, every majority of at least two servers can elect one of its own without anyone else's help. */
  lemma MajorityElects(rules: Rules, n: nat, r: iset<Cluster>, q: set<nat>, s: Cluster) returns (s': Cluster, c: nat)
    requires ClosedFor(rules, n, r, q) && s in r && Shape(n, s) && q <= Ids(n) && |q| > 1 && |q| >= Majority(n)
    ensures s' in r && ElectedBy(n, s, s', q, c)
  {
    var mid, c' := NewestStepsDown(rules, n, r, q, s);
    c := c';
    var t := HighestTerm(s.nodes + mid.nodes);
    TermsBelow(s, mid, t);
    s' := NewestWins(rules, n, r, q, mid, c, t);
    RulingElected(n, s, mid, s', q, c, t);
  }

  lemma Another(q: set<nat>, c: nat) returns (d: nat)
    requires c in q && |q| > 1
    ensures d in q && d != c
  {
    assert |q - {c}| > 0;
    d :| d in q - {c};
  }

  /** By steps of its own the group can elect one of its servers. */
  ghost predicate Electable(rules: Rules, n: nat, q: set<nat>, s: Cluster) {
    exists s', c :: LeadsTo(rules, n, q, s, s') && ElectedBy(n, s, s', q, c)
  }

  /** In every state of every run, every majority of at least two servers has one which, timing out into a term above
      all of theirs and campaigning, is given the vote by all of them and becomes their leader, all by their own steps.
      */
  lemma EveryMajorityElects(rules: Rules, n: nat, ss: seq<Cluster>, acts: seq<Action>, k: nat, q: set<nat>)
    requires Run(rules, n, ss, acts) && k < |ss| && q <= Ids(n) && |q| > 1 && |q| >= Majority(n)
    ensures Electable(rules, n, q, ss[k])
  {
    RunShape(rules, n, ss, acts, k);
    var r := LeadsClosed(rules, n, q, ss[k]);
    var s', c := MajorityElects(rules, n, r, q, ss[k]);
  }

  // ----- a group of one -----

  /** Nobody has answered a vote request, and server c does not lead. */
  ghost predicate Unanswered(n: nat, s: Cluster, c: nat) {
    && |s.nodes| == n && c < n && s.nodes[c].role != Leader
    && (forall m :: m in s.sent ==> !m.AnswerVote? && (m.AskVote? ==> m.req.candidate == c))
  }

  lemma StaysUnanswered(rules: Rules, n: nat, s: Cluster, c: nat, a: Action, s': Cluster)
    requires n > 0 && Unanswered(n, s, c) && a.i == c && Enabled(n, s, a) && s' == Next(rules, n, s, a)
    ensures Unanswered(n, s', c)
  {
    if Moved(rules, n, s.nodes[c], a).role == Leader {
      LeadersAreAnswered(rules, n, s.nodes[c], a);
    }
  }

  lemma {:induction false} AloneUnanswered(rules: Rules, n: nat, s: Cluster, c: nat, acts: seq<Action>, s': Cluster)
    requires n > 0 && Unanswered(n, s, c) && Leads(rules, n, {c}, s, acts, s')
    ensures Unanswered(n, s', c)
    decreases |acts|
  {
    if acts != [] {
      var a := acts[|acts| - 1];
      var mid :| Leads(rules, n, {c}, s, acts[..|acts| - 1], mid)
          && |mid.nodes| == n && a.i in {c} && Enabled(n, mid, a) && !a.Crash? && s' == Next(rules, n, mid, a);
      AloneUnanswered(rules, n, s, c, acts[..|acts| - 1], mid);
      StaysUnanswered(rules, n, mid, c, a, s');
    }
  }

  /** A server by itself cannot come to lead a new cluster, not even one of which it is a majority. */
  lemma AloneElectsNobody(rules: Rules, n: nat, c: nat)
    requires c < n
    ensures !Electable(rules, n, {c}, Init(n))
  {
    if Electable(rules, n, {c}, Init(n)) {
      var s', d :| LeadsTo(rules, n, {c}, Init(n), s') && ElectedBy(n, Init(n), s', {c}, d);
      var acts :| Leads(rules, n, {c}, Init(n), acts, s');
      AloneUnanswered(rules, n, Init(n), c, acts, s');
    }
  }

  /** A majority can elect a leader by its own steps from every reachable state if and only if it has two servers or
      more; this leaves out the single server, which is a majority of one and, by this threshold, of two. */
  lemma ElectableExactly(rules: Rules, n: nat, q: set<nat>)
    requires n > 0 && q <= Ids(n) && |q| >= Majority(n)
    ensures (forall s :: Reachable(rules, n, false, s) ==> Electable(rules, n, q, s)) <==> |q| > 1
  {
    if |q| > 1 {
      forall s | Reachable(rules, n, false, s) ensures Electable(rules, n, q, s) {
        var ss: seq<Cluster>, acts: seq<Action> :| Run(rules, n, ss, acts) && ss[|acts|] == s;
        EveryMajorityElects(rules, n, ss, acts, |acts|, q);
      }
    } else {
      var c := OnlyOne(q);
      AloneElectsNobody(rules, n, c);
      assert Run(rules, n, [Init(n)], []) && [Init(n)][0] == Init(n);
      assert Reachable(rules, n, false, Init(n));
    }
  }

  lemma OnlyOne(q: set<nat>) returns (c: nat)
    requires |q| == 1
    ensures q == {c}
  {
    c :| c in q;
    assert |q - {c}| == 0;
  }

  // ----- votes and roles, exactly -----

  /** A vote is given if and only if the request is not of an earlier term, no other candidate has the server's vote of
      the request's term, and the candidate's log ends in a later term, or in the same one and is not shorter. The
      answer to a request of an earlier term tells the server's own term. */
  lemma VoteGivenExactly(x: Node, req: VoteRequest)
    ensures var (y, resp) := HandleVoteRequest(x, req);
            && (resp.granted <==>
                && (req.term > x.term
                    || (req.term == x.term && (x.votedFor == None || x.votedFor == Some(req.candidate))))
                && (req.lastTerm > LastTerm(x.log)
                    || (req.lastTerm == LastTerm(x.log) && req.lastIndex >= LastIndex(x.log))))
            && resp.term == (if resp.granted then req.term else x.term)
            && y == x.(term := if req.term > x.term then req.term else x.term,
                       role := if req.term > x.term then Follower else x.role,
                       votedFor := if resp.granted then Some(req.candidate)
                           else if req.term > x.term then None else x.votedFor)
  {}

  /** A candidate that asks a server of a later term steps down into that term, and the server is not disturbed. */
  lemma StaleCandidateStepsDown(n: nat, x: Node, y: Node, v: nat)
    requires n > 0 && x.role == Candidate && x.term < y.term
    ensures var (y', resp) := HandleVoteRequest(y, AskOf(x));
            y' == y && CountVote(n, x, x.term, v, resp) == x.(term := y.term, role := Follower, votedFor := None)
  {}

  /** A leader steps down exactly on a vote request of a later term, an append request of its own term or a later one,
      or a restart: neither a timeout nor any answer makes it. */
  lemma LeaderStepsDownExactly(rules: Rules, n: nat, x: Node, a: Action)
    requires n > 0 && x.role == Leader
    ensures Moved(rules, n, x, a).role != Leader <==>
            match a
            case ReceiveAskVote(_, ask) => ask.term > x.term
            case ReceiveAppend(_, req) => req.term >= x.term
            case Crash(_) => true
            case _ => false
  {}

  /** Without an answer from another server no one becomes leader, so a group of one elects nobody. */
  lemma LeadersAreAnswered(rules: Rules, n: nat, x: Node, a: Action)
    requires n > 0 && x.role != Leader && Moved(rules, n, x, a).role == Leader
    ensures a.ReceiveVote? && a.asked == x.term && x.role == Candidate
  {}
}
