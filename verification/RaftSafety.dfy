/** The safety properties of Raft over every run of the cluster. */
module RaftSafety {
  import opened RaftTypes
  import opened RaftSteps
  import opened RaftMerge
  import opened RaftCluster
  import opened RaftElection
  import opened RaftLogs
  import opened RaftCompleteness
  import opened RaftCommit

  /** No server votes for two candidates in a term: by rule, or because no request makes it do so. */
  ghost predicate VotesOnce(rules: Rules, ss: seq<Cluster>, acts: seq<Action>)
    requires |ss| == |acts| + 1
  {
    rules.keepVote || forall k :: 0 <= k < |acts| ==> VotesAfresh(ss[k], acts[k])
  }

  /** Restarts, which bring back no log, only hit servers whose log is empty. */
  ghost predicate KeepsLogs(ss: seq<Cluster>, acts: seq<Action>)
    requires |ss| == |acts| + 1
  {
    forall k :: 0 <= k < |acts| ==> LosesNoLog(ss[k], acts[k])
  }

  /** Followers commit only what a request vouches for: by rule, or because no request asks for more. */
  ghost predicate CommitsOnce(rules: Rules, ss: seq<Cluster>, acts: seq<Action>)
    requires |ss| == |acts| + 1
  {
    rules.capCommit || forall k :: 0 <= k < |acts| ==> CommitsVouched(ss[k], acts[k])
  }

  ghost predicate ElectingRun(rules: Rules, n: nat, ss: seq<Cluster>, acts: seq<Action>) {
    Run(rules, n, ss, acts) && n % 2 == 1 && VotesOnce(rules, ss, acts)
  }

  ghost predicate SafeRun(rules: Rules, n: nat, ss: seq<Cluster>, acts: seq<Action>) {
    ElectingRun(rules, n, ss, acts) && KeepsLogs(ss, acts) && CommitsOnce(rules, ss, acts)
  }

  // ----- induction over runs -----

  lemma {:induction false} ElectingInv(rules: Rules, n: nat, ss: seq<Cluster>, acts: seq<Action>, k: nat)
    requires ElectingRun(rules, n, ss, acts) && k < |ss|
    ensures ElectionInv(rules, n, ss[k]) && LogInv(n, ss[k])
    decreases k
  {
    if k == 0 {
      InitElection(rules, n);
    } else {
      ElectingInv(rules, n, ss, acts, k - 1);
      LogKept(rules, n, ss[k - 1], acts[k - 1]);
    }
  }

  lemma StepGrows(rules: Rules, n: nat, ss: seq<Cluster>, acts: seq<Action>, k: nat)
    requires ElectingRun(rules, n, ss, acts) && k < |acts|
    ensures ReignsGrow(ss[k].reigns, ss[k + 1].reigns)
  {
    ElectingInv(rules, n, ss, acts, k);
    LogKept(rules, n, ss[k], acts[k]);
  }

  lemma GrowthTransitive(r: map<nat, Reign>, r': map<nat, Reign>, r'': map<nat, Reign>)
    requires ReignsGrow(r, r') && ReignsGrow(r', r'')
    ensures ReignsGrow(r, r'')
  {}

  lemma {:induction false} GrowthChains(ss: seq<Cluster>, i: nat, j: nat)
    requires i <= j < |ss| && forall k :: i <= k < j ==> ReignsGrow(ss[k].reigns, ss[k + 1].reigns)
    ensures ReignsGrow(ss[i].reigns, ss[j].reigns)
    decreases j
  {
    if i < j {
      GrowthChains(ss, i, j - 1);
      GrowthTransitive(ss[i].reigns, ss[j - 1].reigns, ss[j].reigns);
    }
  }

  lemma ReignsGrowAlong(rules: Rules, n: nat, ss: seq<Cluster>, acts: seq<Action>, i: nat, j: nat)
    requires ElectingRun(rules, n, ss, acts) && i <= j < |ss|
    ensures ReignsGrow(ss[i].reigns, ss[j].reigns)
  {
    forall k | i <= k < j ensures ReignsGrow(ss[k].reigns, ss[k + 1].reigns) {
      StepGrows(rules, n, ss, acts, k);
    }
    GrowthChains(ss, i, j);
  }

  lemma {:induction false} SafeInv(rules: Rules, n: nat, ss: seq<Cluster>, acts: seq<Action>, k: nat)
    requires SafeRun(rules, n, ss, acts) && k < |ss|
    ensures ElectionInv(rules, n, ss[k]) && LogInv(n, ss[k]) && CompletenessInv(n, ss[k]) && CommitInv(n, ss[k])
    decreases k
  {
    if k == 0 {
      InitElection(rules, n);
    } else {
      SafeInv(rules, n, ss, acts, k - 1);
      CommitKept(rules, n, ss[k - 1], acts[k - 1]);
    }
  }

  lemma EvolvesStep(rules: Rules, n: nat, ss: seq<Cluster>, acts: seq<Action>, k: nat)
    requires SafeRun(rules, n, ss, acts) && k < |acts|
    ensures Evolves(n, ss[k], ss[k + 1])
  {
    SafeInv(rules, n, ss, acts, k);
    CommitKept(rules, n, ss[k], acts[k]);
  }

  lemma EvolvesTransitive(n: nat, s: Cluster, s': Cluster, s'': Cluster)
    requires |s.nodes| == |s'.nodes| == |s''.nodes| == n && Evolves(n, s, s') && Evolves(n, s', s'')
    ensures Evolves(n, s, s'')
  {
    GrowthTransitive(s.reigns, s'.reigns, s''.reigns);
  }

  lemma {:induction false} EvolutionChains(n: nat, ss: seq<Cluster>, i: nat, j: nat)
    requires i <= j < |ss| && forall k :: 0 <= k < |ss| ==> |ss[k].nodes| == n
    requires forall k :: i <= k < j ==> Evolves(n, ss[k], ss[k + 1])
    ensures Evolves(n, ss[i], ss[j])
    decreases j
  {
    if i < j {
      EvolutionChains(n, ss, i, j - 1);
      EvolvesTransitive(n, ss[i], ss[j - 1], ss[j]);
    }
  }

  lemma EvolvesAlong(rules: Rules, n: nat, ss: seq<Cluster>, acts: seq<Action>, i: nat, j: nat)
    requires SafeRun(rules, n, ss, acts) && i <= j < |ss|
    ensures Evolves(n, ss[i], ss[j])
  {
    forall k | i <= k < j ensures Evolves(n, ss[k], ss[k + 1]) {
      EvolvesStep(rules, n, ss, acts, k);
    }
    EvolutionChains(n, ss, i, j);
  }

  // ----- the theorems -----

  lemma TermRises(rules: Rules, n: nat, ss: seq<Cluster>, acts: seq<Action>, k: nat, a: nat)
    requires Run(rules, n, ss, acts) && k < |acts| && a < n
    ensures ss[k].nodes[a].term <= ss[k + 1].nodes[a].term
  {
    TermsRise(rules, n, ss[k], acts[k], a);
  }

  lemma {:induction false} RisesAlong(terms: seq<nat>, i: nat, j: nat)
    requires i <= j < |terms| && forall k :: 0 <= k < |terms| - 1 ==> terms[k] <= terms[k + 1]
    ensures terms[i] <= terms[j]
    decreases j
  {
    if i < j { RisesAlong(terms, i, j - 1); }
  }

  function TermsOf(n: nat, ss: seq<Cluster>, a: nat): (terms: seq<nat>)
    requires a < n && forall k :: 0 <= k < |ss| ==> |ss[k].nodes| == n
    ensures |terms| == |ss| && forall k :: 0 <= k < |ss| ==> terms[k] == ss[k].nodes[a].term
  {
    seq(|ss|, k requires 0 <= k < |ss| => ss[k].nodes[a].term)
  }

  /** Terms never decrease at any server, in any run at all. */
  lemma TermsNeverDecrease(rules: Rules, n: nat, ss: seq<Cluster>, acts: seq<Action>, i: nat, j: nat, a: nat)
    requires Run(rules, n, ss, acts) && i <= j < |ss| && a < n
    ensures ss[i].nodes[a].term <= ss[j].nodes[a].term
  {
    var terms := TermsOf(n, ss, a);
    forall k: nat | k < |terms| - 1 ensures terms[k] <= terms[k + 1] { TermRises(rules, n, ss, acts, k, a); }
    RisesAlong(terms, i, j);
  }

  /** Election safety: two servers that lead the same term, at whatever moments, are one server. */
  lemma ElectionSafety(rules: Rules, n: nat, ss: seq<Cluster>, acts: seq<Action>, i: nat, j: nat, a: nat, b: nat)
    requires ElectingRun(rules, n, ss, acts) && i < |ss| && j < |ss| && a < n && b < n
    requires ss[i].nodes[a].role == Leader && ss[j].nodes[b].role == Leader
    requires ss[i].nodes[a].term == ss[j].nodes[b].term
    ensures a == b
  {
    ElectingInv(rules, n, ss, acts, i);
    ElectingInv(rules, n, ss, acts, j);
    ReignsGrowAlong(rules, n, ss, acts, if i < j then i else j, if i < j then j else i);
  }

  /** Log matching: logs of any servers, at any moments, agree up to any index with equal terms. */
  lemma LogMatching(rules: Rules, n: nat, ss: seq<Cluster>, acts: seq<Action>, i: nat, j: nat, a: nat, b: nat)
    requires ElectingRun(rules, n, ss, acts) && i <= j < |ss| && a < n && b < n
    ensures Agree(ss[i].nodes[a].log, ss[j].nodes[b].log)
  {
    ElectingInv(rules, n, ss, acts, i);
    ElectingInv(rules, n, ss, acts, j);
    ReignsGrowAlong(rules, n, ss, acts, i, j);
    CoherentGrows(ss[i].reigns, ss[j].reigns, ss[i].nodes[a].log);
    CoherentAgree(ss[j].reigns, ss[i].nodes[a].log, ss[j].nodes[b].log);
  }

  /** What a server has committed at one moment is final at every later one. */
  lemma CommitStaysFinal(rules: Rules, n: nat, ss: seq<Cluster>, acts: seq<Action>, i: nat, j: nat, a: nat)
    requires SafeRun(rules, n, ss, acts) && i <= j < |ss| && a < n
    ensures var x := ss[i].nodes[a]; x.commit <= |x.log| && Final(n, ss[j], x.log[..x.commit], x.term)
  {
    SafeInv(rules, n, ss, acts, i);
    var x := ss[i].nodes[a];
    assert x.commit <= |x.log| && Final(n, ss[i], x.log[..x.commit], x.term);
    EvolvesAlong(rules, n, ss, acts, i, j);
    FinalStays(n, ss[i], ss[j], x.log[..x.commit], x.term, x.term);
  }

  lemma LeaderReigns(rules: Rules, n: nat, ss: seq<Cluster>, acts: seq<Action>, j: nat, b: nat)
    requires SafeRun(rules, n, ss, acts) && j < |ss| && b < n && ss[j].nodes[b].role == Leader
    ensures var y := ss[j].nodes[b]; y.term in ss[j].reigns && ss[j].reigns[y.term].log == y.log
    ensures ReignsCarry(n, ss[j])
  {
    SafeInv(rules, n, ss, acts, j);
  }

  /** Leader completeness: what server a has committed is in the log of every leader, from then on,
      of a term no older than a's. */
  lemma LeaderCompleteness(rules: Rules, n: nat, ss: seq<Cluster>, acts: seq<Action>, i: nat, j: nat, a: nat, b: nat)
    requires SafeRun(rules, n, ss, acts) && i <= j < |ss| && a < n && b < n
    requires ss[j].nodes[b].role == Leader && ss[i].nodes[a].term <= ss[j].nodes[b].term
    ensures ss[i].nodes[a].commit <= |ss[i].nodes[a].log|
    ensures ss[i].nodes[a].log[..ss[i].nodes[a].commit] <= ss[j].nodes[b].log
  {
    var x, y := ss[i].nodes[a], ss[j].nodes[b];
    CommitStaysFinal(rules, n, ss, acts, i, j, a);
    LeaderReigns(rules, n, ss, acts, j, b);
    FinalInLeader(n, ss[j], x.log[..x.commit], x.term, y.term);
  }

  lemma FinalsCompare(rules: Rules, n: nat, ss: seq<Cluster>, acts: seq<Action>, j: nat, p: Log, q: Log, t: nat, u: nat)
    requires SafeRun(rules, n, ss, acts) && j < |ss| && Final(n, ss[j], p, t) && Final(n, ss[j], q, u)
    ensures p <= q || q <= p
  {
    SafeInv(rules, n, ss, acts, j);
    FinalsAgree(n, ss[j], p, q, t, u);
  }

  /** Commit safety: the committed entries of two servers, at whatever moments, never contradict. */
  lemma CommitSafety(rules: Rules, n: nat, ss: seq<Cluster>, acts: seq<Action>, i: nat, j: nat, a: nat, b: nat)
    requires SafeRun(rules, n, ss, acts) && i <= j < |ss| && a < n && b < n
    ensures ss[i].nodes[a].commit <= |ss[i].nodes[a].log| && ss[j].nodes[b].commit <= |ss[j].nodes[b].log|
    ensures var p, q := ss[i].nodes[a].log[..ss[i].nodes[a].commit], ss[j].nodes[b].log[..ss[j].nodes[b].commit];
            p <= q || q <= p
  {
    var x, y := ss[i].nodes[a], ss[j].nodes[b];
    CommitStaysFinal(rules, n, ss, acts, i, j, a);
    CommitStaysFinal(rules, n, ss, acts, j, j, b);
    FinalsCompare(rules, n, ss, acts, j, x.log[..x.commit], y.log[..y.commit], x.term, y.term);
  }

  lemma AppliedAgree(x: Node, y: Node)
    requires x.applied <= x.commit <= |x.log| && y.applied <= y.commit <= |y.log|
    requires x.log[..x.commit] <= y.log[..y.commit] || y.log[..y.commit] <= x.log[..x.commit]
    ensures forall k :: 0 <= k < x.applied && k < y.applied ==> x.log[k] == y.log[k]
    ensures x.applied == y.applied ==> x.log[..x.applied] == y.log[..y.applied]
  {
    forall k | 0 <= k < x.applied && k < y.applied ensures x.log[k] == y.log[k] {
      assert x.log[k] == x.log[..x.commit][k] && y.log[k] == y.log[..y.commit][k];
    }
  }

  lemma StoresSoundAlong(rules: Rules, n: nat, ss: seq<Cluster>, acts: seq<Action>, k: nat)
    requires SafeRun(rules, n, ss, acts) && k < |ss|
    ensures StoresSound(n, ss[k])
  {
    SafeInv(rules, n, ss, acts, k);
  }

  lemma LogsIndexed(rules: Rules, n: nat, ss: seq<Cluster>, acts: seq<Action>, k: nat, a: nat)
    requires ElectingRun(rules, n, ss, acts) && k < |ss| && a < n
    ensures Indexed(ss[k].nodes[a].log)
  {
    ElectingInv(rules, n, ss, acts, k);
  }

  /** State machine safety: no two servers ever apply different entries at an index, and servers
      that have applied equally many entries hold the same data. */
  lemma StateMachineSafety(rules: Rules, n: nat, ss: seq<Cluster>, acts: seq<Action>, i: nat, j: nat, a: nat, b: nat)
    requires SafeRun(rules, n, ss, acts) && i <= j < |ss| && a < n && b < n
    ensures var x, y := ss[i].nodes[a], ss[j].nodes[b];
            && x.applied <= |x.log| && y.applied <= |y.log|
            && (forall k :: 0 <= k < x.applied && k < y.applied ==> x.log[k] == y.log[k])
            && (x.applied == y.applied ==> x.store == y.store)
  {
    StoresSoundAlong(rules, n, ss, acts, i);
    StoresSoundAlong(rules, n, ss, acts, j);
    CommitSafety(rules, n, ss, acts, i, j, a, b);
    AppliedAgree(ss[i].nodes[a], ss[j].nodes[b]);
  }

  // ----- the commit rule as written -----

  /** Replication requests reach to the end of the leader's log, so they vouch for all they commit. */
  lemma ReplicationVouches(n: nat, s: Cluster, i: nat, peer: nat)
    requires Shape(n, s) && i < n && s.nodes[i].role == Leader && peer in Peers(n, i)
    requires NextIndexSound(n, s) && CommitsFinal(n, s)
    ensures var req := ReplicateRequest(s.nodes[i], peer); req.leaderCommit <= req.prevIndex + |req.entries|
  {}

  ghost predicate AllVouch(sent: set<Message>) {
    forall m :: m in sent && m.Append? ==> m.append.leaderCommit <= m.append.prevIndex + |m.append.entries|
  }

  /** The first k steps commit only what was vouched for. */
  ghost predicate VouchedUpTo(ss: seq<Cluster>, acts: seq<Action>, k: nat)
    requires |ss| == |acts| + 1 && k <= |acts|
  {
    forall j: nat {:trigger CommitsVouched(ss[j], acts[j])} :: j < k ==> CommitsVouched(ss[j], acts[j])
  }

  lemma PrefixSafe(rules: Rules, n: nat, ss: seq<Cluster>, acts: seq<Action>, k: nat)
    requires ElectingRun(rules, n, ss, acts) && KeepsLogs(ss, acts) && k < |ss|
    requires VouchedUpTo(ss, acts, k)
    ensures SafeRun(rules, n, ss[..k + 1], acts[..k])
  {
    forall j | 0 <= j < k ensures CommitsVouched(ss[..k + 1][j], acts[..k][j]) {
      assert CommitsVouched(ss[j], acts[j]);
    }
  }

  lemma VouchedInv(rules: Rules, n: nat, ss: seq<Cluster>, acts: seq<Action>, k: nat)
    requires ElectingRun(rules, n, ss, acts) && KeepsLogs(ss, acts) && k < |ss|
    requires VouchedUpTo(ss, acts, k)
    ensures Shape(n, ss[k]) && NextIndexSound(n, ss[k]) && CommitsFinal(n, ss[k])
  {
    PrefixSafe(rules, n, ss, acts, k);
    SafeInv(rules, n, ss[..k + 1], acts[..k], k);
  }

  lemma VouchedStep(rules: Rules, n: nat, ss: seq<Cluster>, acts: seq<Action>, k: nat)
    requires ElectingRun(rules, n, ss, acts) && KeepsLogs(ss, acts) && k < |acts| && !acts[k].Heartbeat?
    requires AllVouch(ss[k].sent) && VouchedUpTo(ss, acts, k)
    ensures AllVouch(ss[k + 1].sent) && CommitsVouched(ss[k], acts[k])
  {
    VouchedInv(rules, n, ss, acts, k);
    StepVouches(rules, n, ss[k], acts[k]);
  }

  lemma {:induction false} NoHeartbeatsVouch(rules: Rules, n: nat, ss: seq<Cluster>, acts: seq<Action>, k: nat)
    requires ElectingRun(rules, n, ss, acts) && KeepsLogs(ss, acts) && k < |ss|
    requires forall j :: 0 <= j < |acts| ==> !acts[j].Heartbeat?
    ensures AllVouch(ss[k].sent) && VouchedUpTo(ss, acts, k)
    decreases k
  {
    if k > 0 {
      NoHeartbeatsVouch(rules, n, ss, acts, k - 1);
      VouchedStep(rules, n, ss, acts, k - 1);
    }
  }

  lemma StepVouches(rules: Rules, n: nat, s: Cluster, a: Action)
    requires Shape(n, s) && Enabled(n, s, a) && NextIndexSound(n, s) && CommitsFinal(n, s) && AllVouch(s.sent)
    requires !a.Heartbeat?
    ensures AllVouch(Next(rules, n, s, a).sent) && CommitsVouched(s, a)
  {
    if a.Replicate? {
      ReplicationVouches(n, s, a.i, a.peer);
    } else if a.ReceiveAppend? {
      assert Append(a.i, a.req) in s.sent;
    }
  }

  /** As long as no heartbeat is sent, the written commit rule is as safe as the intended one. */
  lemma SafeWithoutHeartbeats(rules: Rules, n: nat, ss: seq<Cluster>, acts: seq<Action>)
    requires ElectingRun(rules, n, ss, acts) && KeepsLogs(ss, acts)
    requires forall j :: 0 <= j < |acts| ==> !acts[j].Heartbeat?
    ensures SafeRun(rules, n, ss, acts)
  {
    NoHeartbeatsVouch(rules, n, ss, acts, |acts|);
    forall j | 0 <= j < |acts| ensures CommitsVouched(ss[j], acts[j]) {}
  }
}
