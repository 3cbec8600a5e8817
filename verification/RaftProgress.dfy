/** Commands can always be committed: a majority elects a leader, which spreads a new entry and commits it. */
module RaftProgress {
  import opened RaftTypes
  import opened RaftSteps
  import opened RaftMerge
  import opened RaftCluster
  import opened RaftElection
  import opened RaftLogs
  import opened RaftSafety
  import opened RaftRuns
  import opened RaftElectability
  import opened RaftCatchUp
  import opened Numbers
  import opened Sets

  // ----- spreading the log -----

  /** These servers will take over the leader's log. */
  ghost predicate Poised(n: nat, s: Cluster, c: nat, voters: set<nat>) {
    && Shape(n, s) && c < n && c !in voters && s.nodes[c].role == Leader && Indexed(s.nodes[c].log)
    && s.nodes[c].log != [] && s.nodes[c].log[|s.nodes[c].log| - 1].term == s.nodes[c].term
    && (forall p :: p in Peers(n, c) ==> Lookup(s.nodes[c].nextIndex, p) == |s.nodes[c].log|)
    && forall v :: v in voters ==> v < n && Willing(s.nodes[c], s.nodes[v])
  }

  /** A server in the leader's term with only older entries, which agree with the leader's. */
  ghost predicate Willing(x: Node, y: Node) {
    && y.term <= x.term && Indexed(y.log) && Agree(y.log, x.log)
    && forall k :: 0 <= k < |y.log| ==> y.log[k].term < x.term
  }

  predicate Has(y: Node, x: Node) {
    y.log == x.log && y.term == x.term && y.role == Follower
  }

  /** The leader, once it knows that these servers have its log. */
  ghost predicate Knows(n: nat, x: Node, x': Node, done: set<nat>)
    requires n > 0
  {
    && x'.id == x.id && x'.role == Leader && x'.term == x.term && x'.log == x.log
    && (forall p :: p in done ==>
            p in x'.matchIndex && x'.matchIndex[p] == |x.log| && Lookup(x'.nextIndex, p) == |x.log| + 1)
    && (forall p :: p in Peers(n, x.id) && p !in done ==> Lookup(x'.nextIndex, p) == |x.log|)
    && (done != {} ==> CommitsAllItMay(n, x'))
  }

  ghost predicate Spread(n: nat, s: Cluster, s': Cluster, c: nat, done: set<nat>)
    requires n > 0
  {
    && |s.nodes| == n == |s'.nodes| && c < n && Knows(n, s.nodes[c], s'.nodes[c], done)
    && forall u :: 0 <= u < n && u != c ==>
                     && s'.nodes[u].id == s.nodes[u].id
                     && if u in done then Has(s'.nodes[u], s.nodes[c]) else s'.nodes[u] == s.nodes[u]
  }

  lemma TakesItOver(n: nat, x: Node, y: Node, x': Node, y': Node, p: nat)
    requires n > 0 && Willing(x, y) && CaughtUp(n, x, y, x', y', p, true)
    requires x.log != [] && x.log[|x.log| - 1].term == x.term
    ensures Has(y', x)
  {}

  lemma KnowsOneMore(n: nat, x: Node, mid: Node, x': Node, done: set<nat>, p: nat)
    requires n > 0 && Knows(n, x, mid, done) && LeaderKnows(n, mid, x', p, true)
    ensures Knows(n, x, x', done + {p})
  {}

  lemma SpreadPaired(n: nat, s: Cluster, mid: Cluster, c: nat, voters: set<nat>, done: set<nat>, p: nat)
    requires n > 0 && Poised(n, s, c, voters) && p in voters && p !in done && Spread(n, s, mid, c, done)
    ensures p < n && p != c && Shape(n, mid) && mid.nodes[p] == s.nodes[p]
    ensures Paired(mid.nodes[c], mid.nodes[p], p) && NextFor(mid.nodes[c], p) <= |mid.nodes[c].log|
  {
    assert p in Peers(n, c);
  }

  lemma SpreadOneMore(n: nat, s: Cluster, mid: Cluster, s': Cluster, c: nat, done: set<nat>, p: nat)
    requires n > 0 && Spread(n, s, mid, c, done) && BroughtUp(n, mid, s', c, p, true) && p != c
    requires Has(s'.nodes[p], s.nodes[c]) && Knows(n, s.nodes[c], s'.nodes[c], done + {p})
    ensures Spread(n, s, s', c, done + {p})
  {}

  lemma SpreadsToOne(rules: Rules, n: nat, r: iset<Cluster>, q: set<nat>, s: Cluster, mid: Cluster, c: nat,
                     voters: set<nat>, done: set<nat>, p: nat) returns (s': Cluster)
    requires ClosedFor(rules, n, r, q) && mid in r && Poised(n, s, c, voters) && p in voters && p !in done
    requires Spread(n, s, mid, c, done) && c in q && voters <= q
    ensures s' in r && Spread(n, s, s', c, done + {p})
  {
    var x, y := mid.nodes[c], mid.nodes[p];
    SpreadPaired(n, s, mid, c, voters, done, p);
    var k;
    s', k := CatchesUp(rules, n, r, q, mid, c, p);
    TakesItOver(n, x, y, s'.nodes[c], s'.nodes[p], p);
    KnowsOneMore(n, s.nodes[c], x, s'.nodes[c], done, p);
    SpreadOneMore(n, s, mid, s', c, done, p);
  }

  lemma {:induction false} SpreadsToAll(rules: Rules, n: nat, r: iset<Cluster>, q: set<nat>, s: Cluster, mid: Cluster,
                                        c: nat, voters: set<nat>, done: set<nat>) returns (s': Cluster)
    requires ClosedFor(rules, n, r, q) && mid in r && Poised(n, s, c, voters)
    requires Spread(n, s, mid, c, done) && done <= voters <= q && c in q
    ensures s' in r && Spread(n, s, s', c, voters)
    decreases voters - done
  {
    if p :| p in voters && p !in done {
      var next := SpreadsToOne(rules, n, r, q, s, mid, c, voters, done, p);
      assert p in voters - done && p !in voters - (done + {p});
      s' := SpreadsToAll(rules, n, r, q, s, next, c, voters, done + {p});
    } else {
      assert done == voters;
      s' := mid;
    }
  }

  /** Once enough servers have it, the leader has committed its whole log. */
  lemma SpreadCommits(n: nat, x: Node, x': Node, done: set<nat>)
    requires n > 0 && Knows(n, x, x', done) && done != {} && 1 + |done| >= Majority(n)
    requires x.log != [] && x.log[|x.log| - 1].term == x.term
    ensures x'.commit >= |x.log|
  {
    assert done <= Acknowledged(x', |x.log|);
    SubsetSize(done, Acknowledged(x', |x.log|));
    assert CanCommit(n, x', |x.log|);
  }

  // ----- telling that it is committed -----

  predicate Done(y: Node, x: Node) {
    y.log == x.log && y.term == x.term && y.commit >= |x.log|
  }

  ghost predicate Held(n: nat, s: Cluster, c: nat, voters: set<nat>)
    requires n > 0
  {
    && Shape(n, s) && c < n && c !in voters && s.nodes[c].role == Leader && Indexed(s.nodes[c].log)
    && s.nodes[c].commit >= |s.nodes[c].log|
    && forall v :: v in voters ==>
         v < n && Has(s.nodes[v], s.nodes[c]) && Lookup(s.nodes[c].nextIndex, v) == |s.nodes[c].log| + 1
  }

  ghost predicate Told(n: nat, s: Cluster, s': Cluster, c: nat, done: set<nat>) {
    && |s.nodes| == n == |s'.nodes| && c < n && s'.nodes[c] == s.nodes[c]
    && forall u :: 0 <= u < n && u != c ==>
                     && s'.nodes[u].id == s.nodes[u].id
                     && if u in done then Done(s'.nodes[u], s.nodes[c]) else s'.nodes[u] == s.nodes[u]
  }

  lemma TellsOne(rules: Rules, n: nat, r: iset<Cluster>, q: set<nat>, s: Cluster, mid: Cluster, c: nat,
                 voters: set<nat>, done: set<nat>, p: nat) returns (s': Cluster)
    requires n > 0 && ClosedFor(rules, n, r, q) && mid in r && Held(n, s, c, voters) && p in voters && p !in done
    requires Told(n, s, mid, c, done) && c in q && voters <= q
    ensures s' in r && Told(n, s, s', c, done + {p})
  {
    var x, y := mid.nodes[c], mid.nodes[p];
    assert Paired(x, y, p) && Meet(x.log, y.log, NextFor(x, p) - 1);
    var k;
    s', k := CatchesUp(rules, n, r, q, mid, c, p);
    assert k == 0;
  }

  lemma {:induction false} TellsAll(rules: Rules, n: nat, r: iset<Cluster>, q: set<nat>, s: Cluster, mid: Cluster,
                                    c: nat, voters: set<nat>, done: set<nat>) returns (s': Cluster)
    requires n > 0 && ClosedFor(rules, n, r, q) && mid in r && Held(n, s, c, voters)
    requires Told(n, s, mid, c, done) && done <= voters <= q && c in q
    ensures s' in r && Told(n, s, s', c, voters)
    decreases voters - done
  {
    if p :| p in voters && p !in done {
      var next := TellsOne(rules, n, r, q, s, mid, c, voters, done, p);
      assert p in voters - done && p !in voters - (done + {p});
      s' := TellsAll(rules, n, r, q, s, next, c, voters, done + {p});
    } else {
      assert done == voters;
      s' := mid;
    }
  }

  // ----- a command, from the election on -----

  lemma AgreeWithNewer(y: Log, x: Log, e: Entry)
    requires Agree(y, x) && forall k :: 0 <= k < |y| ==> y[k].term < e.term
    ensures Agree(y, x + [e])
  {
    forall k | 0 <= k < |y| && k < |x + [e]| && y[k].term == (x + [e])[k].term
      ensures y[..k + 1] == (x + [e])[..k + 1] {
      assert k < |x| && (x + [e])[..k + 1] == x[..k + 1];
    }
  }

  /** A newly elected leader takes a command. */
  lemma TakesCommandOf(n: nat, s: Cluster, mid: Cluster, s': Cluster, q: set<nat>, c: nat, e: Entry)
    requires Shape(n, s) && LogsSound(n, s) && ElectedBy(n, s, mid, q, c)
    requires e.index == LastIndex(mid.nodes[c].log) + 1 && e.term == mid.nodes[c].term
    requires s'.nodes == mid.nodes[c := mid.nodes[c].(log := mid.nodes[c].log + [e])]
    ensures Poised(n, s', c, q - {c})
  {
    forall v | v in q - {c} ensures v < n && Willing(s'.nodes[c], s'.nodes[v]) {
      CoherentAgree(s.reigns, s.nodes[v].log, s.nodes[c].log);
      AgreeWithNewer(s.nodes[v].log, s.nodes[c].log, e);
    }
  }

  /** Server c of the group leads, with the entry at the end of its log; every server of the group has this log and has
      committed all of it. */
  ghost predicate CommittedBy(n: nat, s: Cluster, s': Cluster, q: set<nat>, c: nat, e: Entry) {
    && |s.nodes| == n == |s'.nodes| && c in q && c < n && s'.nodes[c].role == Leader && s'.nodes[c].term == e.term
    && s'.nodes[c].log == s.nodes[c].log + [e]
    && forall v :: v in q ==>
         v < n && s.nodes[v].term < e.term && s'.nodes[v].log == s'.nodes[c].log
             && s'.nodes[v].commit >= |s'.nodes[v].log|
  }

  lemma AppendsIt(rules: Rules, n: nat, r: iset<Cluster>, q: set<nat>, s: Cluster, mid: Cluster, c: nat, e: Entry)
    returns (s': Cluster)
    requires ClosedFor(rules, n, r, q) && mid in r && Shape(n, s) && LogsSound(n, s) && ElectedBy(n, s, mid, q, c)
    requires e.index == LastIndex(mid.nodes[c].log) + 1 && e.term == mid.nodes[c].term
    ensures s' in r && Poised(n, s', c, q - {c})
    ensures s'.nodes == mid.nodes[c := mid.nodes[c].(log := mid.nodes[c].log + [e])]
  {
    s' := Act(rules, n, r, q, mid, ClientAppend(c, e.kind, e.data, e.timestamp));
    TakesCommandOf(n, s, mid, s', q, c, e);
  }

  lemma SpreadHeld(n: nat, s: Cluster, s': Cluster, c: nat, voters: set<nat>)
    requires n > 0 && Poised(n, s, c, voters) && Spread(n, s, s', c, voters)
    requires voters != {} && 1 + |voters| >= Majority(n)
    ensures Held(n, s', c, voters) && s'.nodes[c].log == s.nodes[c].log && s'.nodes[c].term == s.nodes[c].term
  {
    SpreadCommits(n, s.nodes[c], s'.nodes[c], voters);
  }

  /** A leader that enough servers are open to commits its whole log, and they do too. */
  lemma CommitsLog(rules: Rules, n: nat, r: iset<Cluster>, q: set<nat>, s: Cluster, c: nat, voters: set<nat>)
    returns (s': Cluster)
    requires n > 0 && ClosedFor(rules, n, r, q) && s in r && Poised(n, s, c, voters)
    requires voters != {} && 1 + |voters| >= Majority(n) && c in q && voters <= q
    ensures s' in r && |s'.nodes| == n && s'.nodes[c].role == Leader && Done(s'.nodes[c], s.nodes[c])
    ensures forall v :: v in voters ==> v < n && Done(s'.nodes[v], s.nodes[c])
  {
    var mid := SpreadsToAll(rules, n, r, q, s, s, c, voters, {});
    SpreadHeld(n, s, mid, c, voters);
    s' := TellsAll(rules, n, r, q, mid, mid, c, voters, {});
  }

  lemma DoneCommitted(n: nat, s: Cluster, mid: Cluster, next: Cluster, s': Cluster, q: set<nat>, c: nat, e: Entry)
    requires ElectedBy(n, s, mid, q, c) && e.term == mid.nodes[c].term
    requires next.nodes == mid.nodes[c := mid.nodes[c].(log := mid.nodes[c].log + [e])]
    requires |s'.nodes| == n && s'.nodes[c].role == Leader && Done(s'.nodes[c], next.nodes[c])
    requires forall v :: v in q - {c} ==> v < n && Done(s'.nodes[v], next.nodes[c])
    ensures CommittedBy(n, s, s', q, c, e)
  {
    forall v | v in q
      ensures v < n && s'.nodes[v].log == s'.nodes[c].log && s'.nodes[v].commit >= |s'.nodes[v].log|
    {
      assert v == c || v in q - {c};
    }
  }

  lemma MajorityCommits(rules: Rules, n: nat, r: iset<Cluster>, q: set<nat>, s: Cluster, kind: string, data: Payload,
                        now: int) returns (s': Cluster, c: nat, e: Entry)
    requires ClosedFor(rules, n, r, q) && s in r && Shape(n, s) && LogsSound(n, s)
    requires q <= Ids(n) && |q| > 1 && |q| >= Majority(n)
    ensures s' in r && CommittedBy(n, s, s', q, c, e) && e.kind == kind && e.data == data && e.timestamp == now
  {
    var mid, c' := MajorityElects(rules, n, r, q, s);
    c := c';
    e := Entry(LastIndex(mid.nodes[c].log) + 1, mid.nodes[c].term, kind, data, now);
    var next := AppendsIt(rules, n, r, q, s, mid, c, e);
    assert |q - {c}| == |q| - 1 && q - {c} != {};
    s' := CommitsLog(rules, n, r, q, next, c, q - {c});
    DoneCommitted(n, s, mid, next, s', q, c, e);
  }

  /** In every state of every run that elects safely, every majority of at least two servers can, without anyone else's
      help, elect a leader of its own that takes any given command and commits it on all of them. */
  lemma EveryMajorityCommits(rules: Rules, n: nat, ss: seq<Cluster>, acts: seq<Action>, k: nat, q: set<nat>,
                             kind: string, data: Payload, now: int) returns (s': Cluster, c: nat, e: Entry)
    requires ElectingRun(rules, n, ss, acts) && k < |ss| && q <= Ids(n) && |q| > 1 && |q| >= Majority(n)
    ensures LeadsTo(rules, n, q, ss[k], s') && CommittedBy(n, ss[k], s', q, c, e)
    ensures e.kind == kind && e.data == data && e.timestamp == now
  {
    ElectingInv(rules, n, ss, acts, k);
    var r := LeadsClosed(rules, n, q, ss[k]);
    s', c, e := MajorityCommits(rules, n, r, q, ss[k], kind, data, now);
  }
}
