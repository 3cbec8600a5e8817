/** The checks that compare live servers, and the proof that they never fire on a run. */
module SafetyValidator {
  import opened RaftTypes
  import opened RaftSteps
  import opened RaftMerge
  import opened RaftCluster
  import opened RaftSafety
  import opened Numbers

  // ----- election safety -----

  ghost predicate NoRivals(nodes: seq<Node>) {
    forall i, j :: 0 <= i < j < |nodes| && nodes[i].role == Leader && nodes[j].role == Leader ==>
                     nodes[i].term != nodes[j].term
  }

  method ValidateElectionSafety(nodes: seq<Node>) returns (ok: bool)
    ensures ok <==> NoRivals(nodes)
  {
    var leaders: map<nat, nat> := map[];
    ok := true;
    for k := 0 to |nodes|
      invariant ok <==> NoRivals(nodes[..k])
      invariant forall i :: 0 <= i < k && nodes[i].role == Leader ==> nodes[i].term in leaders
      invariant forall t :: t in leaders ==>
                leaders[t] < k && nodes[leaders[t]].role == Leader && nodes[leaders[t]].term == t
    {
      var node := nodes[k];
      assert nodes[..k + 1] == nodes[..k] + [node];
      if node.role == Leader {
        if node.term in leaders {
          var i := leaders[node.term];
          assert nodes[..k + 1][i].role == Leader && nodes[..k + 1][k].role == Leader;
          ok := false;
        } else {
          leaders := leaders[node.term := k];
        }
      }
    }
    assert nodes[..|nodes|] == nodes;
  }

  // ----- log matching -----

  predicate SameLabel(a: Entry, b: Entry) {
    a.index == b.index && a.term == b.term
  }

  ghost predicate PairMatches(x: Log, y: Log) {
    forall i, j :: 0 <= j <= i < |x| && i < |y| && SameLabel(x[i], y[i]) ==> SameLabel(x[j], y[j])
  }

  method ValidateLogPairMatching(x: Log, y: Log) returns (ok: bool)
    ensures ok <==> PairMatches(x, y)
    ensures ok <==> forall i, j :: 0 <= j <= i < |x| && i < |y| ==>
                                     x[i].index == y[i].index && x[i].term == y[i].term ==>
                                       x[j].index == y[j].index && x[j].term == y[j].term
  {
    var shorter := if |y| < |x| then |y| else |x|;
    for i := 0 to shorter
      invariant forall k, j :: 0 <= j <= k < i && SameLabel(x[k], y[k]) ==> SameLabel(x[j], y[j])
    {
      if SameLabel(x[i], y[i]) {
        for j := 0 to i + 1
          invariant forall k :: 0 <= k < j ==> SameLabel(x[k], y[k])
        {
          if !SameLabel(x[j], y[j]) { return false; }
        }
      }
    }
    return true;
  }

  /** Compares every pair of the logs collected under the servers' names. */
  method ValidateLogMatching(logs: map<nat, Log>) returns (ok: bool)
    ensures ok <==> forall a, b :: a in logs && b in logs && a < b ==> PairMatches(logs[a], logs[b])
  {
    var rest := logs.Keys;
    while rest != {}
      invariant rest <= logs.Keys
      invariant forall a, b :: a in logs && b in logs && a < b && a !in rest ==> PairMatches(logs[a], logs[b])
      decreases rest
    {
      var a :| a in rest;
      var others := logs.Keys;
      while others != {}
        invariant others <= logs.Keys
        invariant forall b :: b in logs && a < b && b !in others ==> PairMatches(logs[a], logs[b])
        decreases others
      {
        var b :| b in others;
        if a < b {
          var matching := ValidateLogPairMatching(logs[a], logs[b]);
          if !matching { return false; }
        }
        others := others - {b};
      }
      rest := rest - {a};
    }
    return true;
  }

  // ----- entries that must not change -----

  predicate SameContent(a: Entry, b: Entry) {
    a.term == b.term && a.data == b.data
  }

  /** The first entries of the log, as many as were applied or committed. */
  function First(log: Log, k: nat): Log {
    if k <= |log| then log[..k] else log
  }

  /** The record holds the content of this entry under its index. */
  predicate Recorded(record: map<nat, Entry>, e: Entry) {
    e.index in record && SameContent(record[e.index], e)
  }

  /** No two of these entries, and none of the recorded ones, differ at the same index. */
  ghost predicate Consistent(record: map<nat, Entry>, lists: seq<Log>) {
    && (forall a, b, i, j :: 0 <= a < |lists| && 0 <= b < |lists| && 0 <= i < |lists[a]| && 0 <= j < |lists[b]| ==>
                               lists[a][i].index == lists[b][j].index ==> SameContent(lists[a][i], lists[b][j]))
    && (forall a, i :: 0 <= a < |lists| && 0 <= i < |lists[a]| && lists[a][i].index in record ==>
                         Recorded(record, lists[a][i]))
  }

  /** The record after going over the lists: what was there, plus entries of the lists. */
  ghost predicate Extends(record0: map<nat, Entry>, record: map<nat, Entry>, lists: seq<Log>) {
    && (forall k :: k in record0 ==> k in record && record[k] == record0[k])
    && (forall k :: k in record && k !in record0 ==>
                      exists a, i :: 0 <= a < |lists| && 0 <= i < |lists[a]| && lists[a][i] == record[k]
                          && lists[a][i].index == k)
  }

  ghost predicate AllRecorded(record: map<nat, Entry>, list: Log, upTo: nat) {
    forall i :: 0 <= i < upTo <= |list| ==> Recorded(record, list[i])
  }

  /** The first record is part of the second, whose other entries are from the list. */
  ghost predicate Gains(record: map<nat, Entry>, more: map<nat, Entry>, list: Log) {
    && (forall k :: k in record ==> k in more && more[k] == record[k])
    && (forall k :: k in more && k !in record ==>
        exists i :: 0 <= i < |list| && list[i] == more[k] && list[i].index == k)
  }

  lemma ExtendsGains(record0: map<nat, Entry>, record: map<nat, Entry>, more: map<nat, Entry>, lists: seq<Log>, a: nat)
    requires Extends(record0, record, lists) && a < |lists| && Gains(record, more, lists[a])
    ensures Extends(record0, more, lists)
  {}

  /** An entry that differs from the record shows that the lists and the first record do not agree. */
  lemma DiffersIsInconsistent(record0: map<nat, Entry>, record: map<nat, Entry>, lists: seq<Log>, a: nat, i: nat)
    requires Extends(record0, record, lists) && a < |lists| && i < |lists[a]|
    requires lists[a][i].index in record && !SameContent(record[lists[a][i].index], lists[a][i])
    ensures !Consistent(record0, lists)
  {
    var k := lists[a][i].index;
    if k !in record0 {
      var b, j :| 0 <= b < |lists| && 0 <= j < |lists[b]| && lists[b][j] == record[k] && lists[b][j].index == k;
    }
  }

  /** A record that has every entry shows that they agree. */
  lemma RecordedIsConsistent(record0: map<nat, Entry>, record: map<nat, Entry>, lists: seq<Log>)
    requires Extends(record0, record, lists) && forall a :: 0 <= a < |lists| ==>
             AllRecorded(record, lists[a], |lists[a]|)
    ensures Consistent(record0, lists)
  {
    forall a, i | 0 <= a < |lists| && 0 <= i < |lists[a]| ensures Recorded(record, lists[a][i]) {
      assert AllRecorded(record, lists[a], |lists[a]|);
    }
  }

  /** The inner loop: goes over one list, and stops at the first entry that differs from the record. */
  method CompareList(record: map<nat, Entry>, list: Log) returns (ok: bool, more: map<nat, Entry>)
    ensures Gains(record, more, list) && (ok ==> AllRecorded(more, list, |list|))
    ensures !ok ==> exists i :: 0 <= i < |list| && list[i].index in more && !SameContent(more[list[i].index], list[i])
  {
    more := record;
    for i := 0 to |list|
      invariant Gains(record, more, list) && AllRecorded(more, list, i)
    {
      var entry := list[i];
      if entry.index in more {
        if !SameContent(more[entry.index], entry) { return false, more; }
      } else {
        more := more[entry.index := entry];
      }
    }
    return true, more;
  }

  /** Goes over the entries, recording each index once and stopping at the first that differs. */
  method Compare(record0: map<nat, Entry>, lists: seq<Log>) returns (ok: bool, record: map<nat, Entry>)
    ensures ok <==> Consistent(record0, lists)
    ensures Extends(record0, record, lists)
    ensures ok ==> forall a, i :: 0 <= a < |lists| && 0 <= i < |lists[a]| ==> Recorded(record, lists[a][i])
  {
    record := record0;
    for a := 0 to |lists|
      invariant Extends(record0, record, lists)
      invariant forall b :: 0 <= b < a ==> AllRecorded(record, lists[b], |lists[b]|)
    {
      var same, more := CompareList(record, lists[a]);
      ExtendsGains(record0, record, more, lists, a);
      record := more;
      if !same {
        ghost var i :| 0 <= i < |lists[a]| && lists[a][i].index in record
                       && !SameContent(record[lists[a][i].index], lists[a][i]);
        DiffersIsInconsistent(record0, record, lists, a, i);
        return false, record;
      }
    }
    RecordedIsConsistent(record0, record, lists);
    return true, record;
  }

  function Applied(nodes: seq<Node>): (r: seq<Log>)
    ensures |r| == |nodes|
  {
    seq(|nodes|, i requires 0 <= i < |nodes| => First(nodes[i].log, nodes[i].applied))
  }

  function Committed(nodes: seq<Node>): (r: seq<Log>)
    ensures |r| == |nodes|
  {
    seq(|nodes|, i requires 0 <= i < |nodes| => First(nodes[i].log, nodes[i].commit))
  }

  /** Entries of the same index have the same term and data. */
  predicate NoClash(a: Entry, b: Entry) {
    a.index == b.index ==> a.term == b.term && a.data == b.data
  }

  ghost predicate NoneClash(p: Log, q: Log) {
    forall i, j :: 0 <= i < |p| && 0 <= j < |q| ==> NoClash(p[i], q[j])
  }

  lemma ConsistentPairs(lists: seq<Log>)
    ensures Consistent(map[], lists) <==>
            forall a, b :: 0 <= a < |lists| && 0 <= b < |lists| ==> NoneClash(lists[a], lists[b])
  {
    if !Consistent(map[], lists) {
      var a, b, i, j :| 0 <= a < |lists| && 0 <= b < |lists| && 0 <= i < |lists[a]| && 0 <= j < |lists[b]|
                        && lists[a][i].index == lists[b][j].index && !SameContent(lists[a][i], lists[b][j]);
      assert !NoClash(lists[a][i], lists[b][j]);
      assert !NoneClash(lists[a], lists[b]);
    }
  }

  /** The two servers have applied no entries that clash. */
  ghost predicate AppliedAgree(x: Node, y: Node) {
    NoneClash(x.log[..Min(x.applied, |x.log|)], y.log[..Min(y.applied, |y.log|)])
  }

  /** The two servers have committed no entries that clash. */
  ghost predicate CommittedAgree(x: Node, y: Node) {
    NoneClash(x.log[..Min(x.commit, |x.log|)], y.log[..Min(y.commit, |y.log|)])
  }

  lemma FirstIs(log: Log, k: nat)
    ensures First(log, k) == log[..Min(k, |log|)]
  {}

  /** The state machine check passes if and only if no two servers have applied entries that clash ... */
  lemma AppliedExactly(nodes: seq<Node>)
    ensures Consistent(map[], Applied(nodes)) <==>
            forall a, b :: 0 <= a < |nodes| && 0 <= b < |nodes| ==> AppliedAgree(nodes[a], nodes[b])
  {
    var lists := Applied(nodes);
    ConsistentPairs(lists);
    forall a, b | 0 <= a < |nodes| && 0 <= b < |nodes|
      ensures NoneClash(lists[a], lists[b]) <==> AppliedAgree(nodes[a], nodes[b])
    {
      FirstIs(nodes[a].log, nodes[a].applied);
      FirstIs(nodes[b].log, nodes[b].applied);
    }
  }

  /** ... and the commit check if and only if no two servers have committed entries that clash ... */
  lemma CommittedExactly(nodes: seq<Node>)
    ensures Consistent(map[], Committed(nodes)) <==>
            forall a, b :: 0 <= a < |nodes| && 0 <= b < |nodes| ==> CommittedAgree(nodes[a], nodes[b])
  {
    var lists := Committed(nodes);
    ConsistentPairs(lists);
    forall a, b | 0 <= a < |nodes| && 0 <= b < |nodes|
      ensures NoneClash(lists[a], lists[b]) <==> CommittedAgree(nodes[a], nodes[b])
    {
      FirstIs(nodes[a].log, nodes[a].commit);
      FirstIs(nodes[b].log, nodes[b].commit);
    }
  }

  /** ... and none of them clashes with the record. */
  lemma RecordExactly(nodes: seq<Node>, record: map<nat, Entry>)
    ensures Consistent(record, Committed(nodes)) <==>
            && Consistent(map[], Committed(nodes))
            && forall x, i :: x in nodes && 0 <= i < Min(x.commit, |x.log|) && x.log[i].index in record ==>
                 record[x.log[i].index].term == x.log[i].term && record[x.log[i].index].data == x.log[i].data
  {
    var lists := Committed(nodes);
    if Consistent(record, lists) {
      forall x, i | x in nodes && 0 <= i < Min(x.commit, |x.log|) && x.log[i].index in record
        ensures record[x.log[i].index].term == x.log[i].term && record[x.log[i].index].data == x.log[i].data
      {
        var a :| 0 <= a < |nodes| && nodes[a] == x;
        assert lists[a][i] == x.log[i];
      }
    } else if Consistent(map[], lists) {
      var a, i :| 0 <= a < |lists| && 0 <= i < |lists[a]| && lists[a][i].index in record
                  && !Recorded(record, lists[a][i]);
      assert nodes[a] in nodes && nodes[a].log[i] == lists[a][i];
    }
  }

  method ValidateStateMachineSafety(nodes: seq<Node>) returns (ok: bool)
    ensures ok <==> Consistent(map[], Applied(nodes))
  {
    var record;
    ok, record := Compare(map[], Applied(nodes));
  }

  /** Compares the committed entries with all that was recorded before, and records the new ones. */
  method ValidateCommitSafety(nodes: seq<Node>, record0: map<nat, Entry>) returns (ok: bool, record: map<nat, Entry>)
    ensures ok <==> Consistent(record0, Committed(nodes))
    ensures Extends(record0, record, Committed(nodes))
    ensures ok ==> forall a, i :: 0 <= a < |nodes| && 0 <= i < |Committed(nodes)[a]| ==>
            Recorded(record, Committed(nodes)[a][i])
  {
    ok, record := Compare(record0, Committed(nodes));
  }

  // ----- leader completeness -----

  predicate Holds(log: Log, e: Entry) {
    exists k :: 0 <= k < |log| && SameLabel(log[k], e)
  }

  /** The leader looked at for a term: the last one listed. */
  ghost predicate Speaks(nodes: seq<Node>, i: nat) {
    && i < |nodes| && nodes[i].role == Leader
    && forall j :: i < j < |nodes| && nodes[j].role == Leader ==> nodes[j].term != nodes[i].term
  }

  method CollectLeaders(nodes: seq<Node>) returns (leaders: map<nat, nat>)
    ensures forall t :: t in leaders ==> Speaks(nodes, leaders[t]) && nodes[leaders[t]].term == t
    ensures forall i :: 0 <= i < |nodes| && nodes[i].role == Leader ==> nodes[i].term in leaders
  {
    leaders := map[];
    for k := 0 to |nodes|
      invariant forall t :: t in leaders ==>
                              && leaders[t] < k && nodes[leaders[t]].role == Leader && nodes[leaders[t]].term == t
                              && forall j :: leaders[t] < j < k && nodes[j].role == Leader ==> nodes[j].term != t
      invariant forall i :: 0 <= i < k && nodes[i].role == Leader ==> nodes[i].term in leaders
    {
      if nodes[k].role == Leader { leaders := leaders[nodes[k].term := k]; }
    }
  }

  method Find(log: Log, e: Entry) returns (found: bool)
    ensures found <==> Holds(log, e)
  {
    for k := 0 to |log|
      invariant forall j :: 0 <= j < k ==> !SameLabel(log[j], e)
    {
      if SameLabel(log[k], e) { return true; }
    }
    return false;
  }

  /** `committed` maps terms to entries committed in them. */
  ghost predicate LeaderComplete(x: Node, committed: map<nat, Entry>) {
    forall t :: t in committed && t < x.term ==> Holds(x.log, committed[t])
  }

  method ValidateLeaderCompleteness(nodes: seq<Node>, committed: map<nat, Entry>) returns (ok: bool)
    ensures ok <==> forall i: nat :: Speaks(nodes, i) ==> LeaderComplete(nodes[i], committed)
    ensures ok <==> forall i: nat, t :: Speaks(nodes, i) && t in committed && t < nodes[i].term ==>
                      exists k :: 0 <= k < |nodes[i].log| && nodes[i].log[k].index == committed[t].index
                          && nodes[i].log[k].term == committed[t].term
  {
    var leaders := CollectLeaders(nodes);
    var terms := leaders.Keys;
    while terms != {}
      invariant terms <= leaders.Keys
      invariant forall u :: u in leaders && u !in terms ==> LeaderComplete(nodes[leaders[u]], committed)
      decreases terms
    {
      var u :| u in terms;
      var leader, rest := nodes[leaders[u]], committed.Keys;
      while rest != {}
        invariant rest <= committed.Keys
        invariant forall t :: t in committed && t !in rest && t < leader.term ==> Holds(leader.log, committed[t])
        decreases rest
      {
        var t :| t in rest;
        if t < leader.term {
          var found := Find(leader.log, committed[t]);
          if !found { return false; }
        }
        rest := rest - {t};
      }
      terms := terms - {u};
    }
    forall i: nat | Speaks(nodes, i) ensures LeaderComplete(nodes[i], committed) {
      assert leaders[nodes[i].term] == i;
    }
    return true;
  }

  // ----- on a run, no check ever fires -----

  lemma RunHasNoRivals(rules: Rules, n: nat, ss: seq<Cluster>, acts: seq<Action>, i: nat)
    requires ElectingRun(rules, n, ss, acts) && i < |ss|
    ensures NoRivals(ss[i].nodes)
  {
    forall a, b | 0 <= a < b < n && ss[i].nodes[a].role == Leader && ss[i].nodes[b].role == Leader
      ensures ss[i].nodes[a].term != ss[i].nodes[b].term
    {
      if ss[i].nodes[a].term == ss[i].nodes[b].term { ElectionSafety(rules, n, ss, acts, i, i, a, b); }
    }
  }

  lemma RunLogsMatch(rules: Rules, n: nat, ss: seq<Cluster>, acts: seq<Action>, i: nat, a: nat, b: nat)
    requires ElectingRun(rules, n, ss, acts) && i < |ss| && a < n && b < n
    ensures PairMatches(ss[i].nodes[a].log, ss[i].nodes[b].log)
  {
    LogMatching(rules, n, ss, acts, i, i, a, b);
    var x, y := ss[i].nodes[a].log, ss[i].nodes[b].log;
    forall k, j | 0 <= j <= k < |x| && k < |y| && SameLabel(x[k], y[k]) ensures SameLabel(x[j], y[j]) {
      assert x[..k + 1][j] == y[..k + 1][j];
    }
  }

  lemma CommittedSame(rules: Rules, n: nat, ss: seq<Cluster>, acts: seq<Action>, i: nat, j: nat, a: nat, b: nat, k: nat)
    requires SafeRun(rules, n, ss, acts) && i <= j < |ss| && a < n && b < n
    requires k < ss[i].nodes[a].commit && k < ss[j].nodes[b].commit
    ensures k < |ss[i].nodes[a].log| && k < |ss[j].nodes[b].log| && ss[i].nodes[a].log[k] == ss[j].nodes[b].log[k]
  {
    CommitSafety(rules, n, ss, acts, i, j, a, b);
    var x, y := ss[i].nodes[a], ss[j].nodes[b];
    assert x.log[..x.commit][k] == x.log[k] && y.log[..y.commit][k] == y.log[k];
  }

  /** Everything recorded was committed by some server at some moment up to j. */
  ghost predicate Known(n: nat, ss: seq<Cluster>, j: nat, record: map<nat, Entry>)
    requires j < |ss| && forall k :: 0 <= k < |ss| ==> |ss[k].nodes| == n
  {
    forall k :: k in record ==>
                  exists i: nat, a: nat :: i <= j && a < n && WasCommitted(ss[i].nodes[a], k, record[k])
  }

  ghost predicate WasCommitted(x: Node, index: nat, e: Entry) {
    0 < index <= x.commit && index <= |x.log| && x.log[index - 1] == e
  }

  lemma CommittedPosition(rules: Rules, n: nat, ss: seq<Cluster>, acts: seq<Action>, j: nat, b: nat, i: nat)
    requires SafeRun(rules, n, ss, acts) && j < |ss| && b < n && i < |First(ss[j].nodes[b].log, ss[j].nodes[b].commit)|
    ensures var e := First(ss[j].nodes[b].log, ss[j].nodes[b].commit)[i];
            e.index == i + 1 && WasCommitted(ss[j].nodes[b], i + 1, e)
  {
    LogsIndexed(rules, n, ss, acts, j, b);
  }

  lemma CommittedListsAgree(rules: Rules, n: nat, ss: seq<Cluster>, acts: seq<Action>, j: nat, a: nat, b: nat, p: nat,
                            q: nat)
    requires SafeRun(rules, n, ss, acts) && j < |ss| && a < n && b < n
    requires var lists := Committed(ss[j].nodes);
             p < |lists[a]| && q < |lists[b]| && lists[a][p].index == lists[b][q].index
    ensures SameContent(Committed(ss[j].nodes)[a][p], Committed(ss[j].nodes)[b][q])
  {
    CommittedPosition(rules, n, ss, acts, j, a, p);
    CommittedPosition(rules, n, ss, acts, j, b, q);
    CommittedSame(rules, n, ss, acts, j, j, a, b, p);
  }

  lemma CommittedRecorded(rules: Rules, n: nat, ss: seq<Cluster>, acts: seq<Action>, j: nat, record: map<nat, Entry>,
                          b: nat, q: nat)
    requires SafeRun(rules, n, ss, acts) && j < |ss| && Known(n, ss, j, record) && b < n
    requires var lists := Committed(ss[j].nodes); q < |lists[b]| && lists[b][q].index in record
    ensures Recorded(record, Committed(ss[j].nodes)[b][q])
  {
    CommittedPosition(rules, n, ss, acts, j, b, q);
    var i: nat, a: nat :| i <= j && a < n && WasCommitted(ss[i].nodes[a], q + 1, record[q + 1]);
    CommittedSame(rules, n, ss, acts, i, j, a, b, q);
  }

  lemma ExtendedKnown(rules: Rules, n: nat, ss: seq<Cluster>, acts: seq<Action>, j: nat, record: map<nat, Entry>,
                      record': map<nat, Entry>)
    requires SafeRun(rules, n, ss, acts) && j < |ss| && Known(n, ss, j, record)
    requires Extends(record, record', Committed(ss[j].nodes))
    ensures Known(n, ss, j, record')
  {
    var lists: seq<Log> := Committed(ss[j].nodes);
    forall k | k in record' && k !in record
      ensures exists i: nat, a: nat :: i <= j && a < n && WasCommitted(ss[i].nodes[a], k, record'[k])
    {
      var b: nat, q: nat :| b < n && q < |lists[b]| && lists[b][q] == record'[k] && lists[b][q].index == k;
      CommittedPosition(rules, n, ss, acts, j, b, q);
    }
  }

  /** The commit check passes at every moment of a run, however many earlier checks fed its record,
      and what it then records was committed. */
  lemma CommitCheckPasses(rules: Rules, n: nat, ss: seq<Cluster>, acts: seq<Action>, j: nat, record: map<nat, Entry>)
    requires SafeRun(rules, n, ss, acts) && j < |ss| && Known(n, ss, j, record)
    ensures Consistent(record, Committed(ss[j].nodes))
    ensures forall record' :: Extends(record, record', Committed(ss[j].nodes)) ==> Known(n, ss, j, record')
  {
    var lists: seq<Log> := Committed(ss[j].nodes);
    forall a: nat, b: nat, p: nat, q: nat | a < n && b < n && p < |lists[a]| && q < |lists[b]|
        && lists[a][p].index == lists[b][q].index
      ensures SameContent(lists[a][p], lists[b][q])
    {
      CommittedListsAgree(rules, n, ss, acts, j, a, b, p, q);
    }
    forall b: nat, q: nat | b < n && q < |lists[b]| && lists[b][q].index in record
      ensures Recorded(record, lists[b][q])
    {
      CommittedRecorded(rules, n, ss, acts, j, record, b, q);
    }
    forall record' | Extends(record, record', lists) ensures Known(n, ss, j, record') {
      ExtendedKnown(rules, n, ss, acts, j, record, record');
    }
  }

  /** The state machine check passes at every moment of a run. */
  lemma ApplyCheckPasses(rules: Rules, n: nat, ss: seq<Cluster>, acts: seq<Action>, j: nat)
    requires SafeRun(rules, n, ss, acts) && j < |ss|
    ensures Consistent(map[], Applied(ss[j].nodes))
  {
    var lists: seq<Log> := Applied(ss[j].nodes);
    forall a: nat, b: nat, p: nat, q: nat | a < n && b < n && p < |lists[a]| && q < |lists[b]|
        && lists[a][p].index == lists[b][q].index
      ensures SameContent(lists[a][p], lists[b][q])
    {
      LogsIndexed(rules, n, ss, acts, j, a);
      LogsIndexed(rules, n, ss, acts, j, b);
      StateMachineSafety(rules, n, ss, acts, j, j, a, b);
    }
  }

  /** Every leader holds every entry that was committed by a server of a lower term. */
  lemma LeaderHolds(rules: Rules, n: nat, ss: seq<Cluster>, acts: seq<Action>, i: nat, j: nat, a: nat, b: nat, e: Entry)
    requires SafeRun(rules, n, ss, acts) && i <= j < |ss| && a < n && b < n && ss[j].nodes[b].role == Leader
    requires ss[i].nodes[a].term <= ss[j].nodes[b].term && WasCommitted(ss[i].nodes[a], e.index, e)
    ensures Holds(ss[j].nodes[b].log, e)
  {
    LeaderCompleteness(rules, n, ss, acts, i, j, a, b);
    var x, k := ss[i].nodes[a], e.index - 1;
    assert x.log[..x.commit][k] == ss[j].nodes[b].log[k];
    assert SameLabel(ss[j].nodes[b].log[k], e);
  }

  lemma LeaderCheckPasses(rules: Rules, n: nat, ss: seq<Cluster>, acts: seq<Action>, j: nat, b: nat,
                          committed: map<nat, Entry>)
    requires SafeRun(rules, n, ss, acts) && j < |ss| && b < n && ss[j].nodes[b].role == Leader
    requires forall t :: t in committed ==>
                           exists i: nat, a: nat :: i <= j && a < n && ss[i].nodes[a].term <= t
                                                    && WasCommitted(ss[i].nodes[a], committed[t].index, committed[t])
    ensures LeaderComplete(ss[j].nodes[b], committed)
  {
    forall t | t in committed && t < ss[j].nodes[b].term ensures Holds(ss[j].nodes[b].log, committed[t]) {
      var i: nat, a: nat :| i <= j && a < n && ss[i].nodes[a].term <= t
                            && WasCommitted(ss[i].nodes[a], committed[t].index, committed[t]);
      LeaderHolds(rules, n, ss, acts, i, j, a, b, committed[t]);
    }
  }
}
