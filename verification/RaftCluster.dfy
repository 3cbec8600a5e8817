/** The cluster as a state machine: servers, the messages sent so far, and history variables. */
module RaftCluster {
  import opened Wrappers
  import opened RaftTypes
  import opened RaftSteps
  import opened Numbers

  /** Replies are paired with their requests, as a remote call pairs them. */
  datatype Message =
    | AskVote(req: VoteRequest)
    | AnswerVote(asked: nat, candidate: nat, voter: nat, vote: VoteResponse)
    | Append(to: nat, append: AppendRequest)
    | AnswerAppend(from: nat, append: AppendRequest, answer: AppendResponse)

  datatype Vote = Vote(term: nat, voter: nat, candidate: nat)

  datatype Reign = Reign(leader: nat, log: Log)

  /** `votes`, `reigns` and `acks` only record the past and influence no step: every vote ever given,
      for each term the leader elected and its log while it led, and how much of that log each
      server has confirmed in that term. Messages stay in `sent`, so that they can be lost,
      repeated and reordered. */
  datatype Cluster = Cluster(
    nodes: seq<Node>, sent: set<Message>, votes: set<Vote>, reigns: map<nat, Reign>, acks: map<(nat, nat), nat>)

  datatype Action =
    | Timeout(i: nat)
    | Campaign(i: nat)
    | ReceiveAskVote(i: nat, ask: VoteRequest)
    | ReceiveVote(i: nat, asked: nat, voter: nat, vote: VoteResponse)
    | ClientAppend(i: nat, kind: string, data: Payload, now: int)
    | Replicate(i: nat, peer: nat)
    | Heartbeat(i: nat, peer: nat)
    | ReceiveAppend(i: nat, req: AppendRequest)
    | ReceiveAnswer(i: nat, peer: nat, req: AppendRequest, resp: AppendResponse)
    | Apply(i: nat)
    | Crash(i: nat)

  function Init(n: nat): Cluster {
    Cluster(seq(n, (i: nat) => Fresh(i, 0, None)), {}, {}, map[], map[])
  }

  predicate Enabled(n: nat, s: Cluster, a: Action)
    requires |s.nodes| == n
  {
    && a.i < n
    && match a {
      case Timeout(i) => s.nodes[i].role != Leader
      case Campaign(i) => true
      case ReceiveAskVote(i, ask) => AskVote(ask) in s.sent && ask.candidate != i
      case ReceiveVote(i, asked, voter, vote) => AnswerVote(asked, i, voter, vote) in s.sent
      case ClientAppend(i, _, _, _) => s.nodes[i].role == Leader
      case Replicate(i, peer) => s.nodes[i].role == Leader && peer in Peers(n, i)
      case Heartbeat(i, peer) => s.nodes[i].role == Leader && peer in Peers(n, i)
      case ReceiveAppend(i, req) => Append(i, req) in s.sent
      case ReceiveAnswer(i, peer, req, resp) => req.leader == i && AnswerAppend(peer, req, resp) in s.sent
      case Apply(i) => s.nodes[i].applied < s.nodes[i].commit
      case Crash(i) => true
    }
  }

  /** The acting server after the action. */
  function Moved(rules: Rules, n: nat, x: Node, a: Action): Node
    requires n > 0
  {
    match a
    case Timeout(_) => ElectionTimeout(x)
    case Campaign(_) => x
    case ReceiveAskVote(_, ask) => HandleVoteRequest(x, ask).0
    case ReceiveVote(_, asked, voter, vote) => CountVote(n, x, asked, voter, vote)
    case ClientAppend(_, kind, data, now) => AppendEntry(x, kind, data, now)
    case Replicate(_, _) => x
    case Heartbeat(_, _) => x
    case ReceiveAppend(_, req) => HandleAppend(rules, x, req).0
    case ReceiveAnswer(_, peer, req, resp) => HandleAppendResponse(n, x, peer, req, resp)
    case Apply(_) => ApplyNext(x)
    case Crash(_) => Restart(x)
  }

  /** The messages the action sends. */
  function Outgoing(rules: Rules, x: Node, a: Action): set<Message> {
    match a
    case Campaign(i) => {AskVote(VoteRequest(x.term, i, LastIndex(x.log), LastTerm(x.log)))}
    case ReceiveAskVote(i, ask) => {AnswerVote(ask.term, ask.candidate, i, HandleVoteRequest(x, ask).1)}
    case Replicate(_, peer) => {Append(peer, ReplicateRequest(x, peer))}
    case Heartbeat(_, peer) => {Append(peer, HeartbeatRequest(x, peer))}
    case ReceiveAppend(i, req) => {AnswerAppend(i, req, HandleAppend(rules, x, req).1)}
    case _ => {}
  }

  function Cast(x: Node, a: Action): set<Vote> {
    match a
    case Timeout(i) => {Vote(x.term + 1, i, i)}
    case ReceiveAskVote(i, ask) =>
        if HandleVoteRequest(x, ask).1.granted then {Vote(ask.term, i, ask.candidate)} else {}
    case _ => {}
  }

  /** A reign starts when the server turns leader and follows its log while it leads. */
  function Crowned(reigns: map<nat, Reign>, i: nat, y: Node): map<nat, Reign> {
    if y.role == Leader then reigns[y.term := Reign(i, y.log)] else reigns
  }

  function Confirmed(acks: map<(nat, nat), nat>, rules: Rules, x: Node, a: Action): map<(nat, nat), nat> {
    match a
    case ReceiveAppend(i, req) =>
      if HandleAppend(rules, x, req).1.success then
        var reached := req.prevIndex + |req.entries|;
        acks[(req.term, i) := if (req.term, i) in acks then Max(acks[(req.term, i)], reached) else reached]
      else acks
    case _ => acks
  }

  function Next(rules: Rules, n: nat, s: Cluster, a: Action): Cluster
    requires |s.nodes| == n && a.i < n
  {
    var x := s.nodes[a.i];
    var y := Moved(rules, n, x, a);
    Cluster(s.nodes[a.i := y], s.sent + Outgoing(rules, x, a), s.votes + Cast(x, a),
            Crowned(s.reigns, a.i, y), Confirmed(s.acks, rules, x, a))
  }

  /** A run: states ss linked by actions acts, starting from fresh servers. */
  ghost predicate Run(rules: Rules, n: nat, ss: seq<Cluster>, acts: seq<Action>) {
    && n > 0 && |ss| == |acts| + 1 && ss[0] == Init(n)
    && (forall k :: 0 <= k < |ss| ==> |ss[k].nodes| == n)
    && forall k :: 0 <= k < |acts| ==> Enabled(n, ss[k], acts[k]) && ss[k + 1] == Next(rules, n, ss[k], acts[k])
  }

  /** The server has not yet voted for anyone else in the term of this vote request. */
  ghost predicate VotesAfresh(s: Cluster, a: Action) {
    a.ReceiveAskVote? ==> forall c :: Vote(a.ask.term, a.i, c) in s.votes ==> c == a.ask.candidate
  }
}
