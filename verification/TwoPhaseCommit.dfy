/** The cross-shard transaction coordinator: two-phase commit with arbitrary replies and overlapping calls. */
module TwoPhaseCommit {
  import opened Wrappers

  datatype Status = Pending | Preparing | Prepared | Committed | Aborted

  datatype Vote = Commit | Abort

  /** A shard's answer to a prepare request. */
  datatype Reply = Error | Voted(vote: Vote)

  /** A transaction; an operation is known by the shard it was routed to. */
  datatype Tx = Tx(status: Status, operations: seq<nat>, participants: set<nat>, votes: map<nat, Vote>)

  datatype Phase = Asking | Committing | Succeeded | Failed

  /** One call of ExecuteTransaction: the shards still to answer in this phase, whether an error was seen, and the
      shards that voted to commit, were sent a commit request, and acknowledged it in this call. */
  datatype Exec = Exec(
    phase: Phase, waiting: set<nat>, error: bool, voted: set<nat>, asked: set<nat>, acked: set<nat>)

  datatype State = State(tx: Tx, execs: seq<Exec>)

  datatype Step =
    | AddOperation(route: Option<nat>)
    | Begin
    | PrepareAnswer(e: nat, shard: nat, reply: Reply)
    | EndPrepare(e: nat)
    | CommitAnswer(e: nat, shard: nat, ok: bool)
    | EndCommit(e: nat)

  const START := State(Tx(Pending, [], {}, map[]), [])

  predicate Enabled(s: State, step: Step) {
    match step
    case AddOperation(_) => true
    case Begin => true
    case PrepareAnswer(e, shard, _) => e < |s.execs| && s.execs[e].phase == Asking && shard in s.execs[e].waiting
    case EndPrepare(e) => e < |s.execs| && s.execs[e].phase == Asking && s.execs[e].waiting == {}
    case CommitAnswer(e, shard, _) => e < |s.execs| && s.execs[e].phase == Committing && shard in s.execs[e].waiting
    case EndCommit(e) => e < |s.execs| && s.execs[e].phase == Committing && s.execs[e].waiting == {}
  }

  /** An operation is taken only while the transaction is pending and if it can be routed. */
  function Add(tx: Tx, route: Option<nat>): (Tx, bool) {
    if tx.status != Pending || route.None? then (tx, false)
    else (tx.(operations := tx.operations + [route.value], participants := tx.participants + {route.value}), true)
  }

  function HearVote(x: Exec, shard: nat, reply: Reply): Exec {
    x.(waiting := x.waiting - {shard}, error := x.error || reply != Voted(Commit),
       voted := if reply == Voted(Commit) then x.voted + {shard} else x.voted)
  }

  predicate AllCommit(votes: map<nat, Vote>) {
    forall shard :: shard in votes ==> votes[shard] == Commit
  }

  function HearCommit(x: Exec, shard: nat, ok: bool): Exec {
    x.(waiting := x.waiting - {shard}, error := x.error || !ok, asked := x.asked + {shard},
       acked := if ok then x.acked + {shard} else x.acked)
  }

  function Next(s: State, step: Step): State
    requires Enabled(s, step)
  {
    match step
    case AddOperation(route) => s.(tx := Add(s.tx, route).0)
    case Begin =>
      State(s.tx.(status := Preparing), s.execs + [Exec(Asking, s.tx.participants, false, {}, {}, {})])
    case PrepareAnswer(e, shard, reply) =>
      State(if reply.Voted? then s.tx.(votes := s.tx.votes[shard := reply.vote]) else s.tx,
            s.execs[e := HearVote(s.execs[e], shard, reply)])
    case EndPrepare(e) =>
      if s.execs[e].error || !AllCommit(s.tx.votes)
      then State(s.tx.(status := Aborted), s.execs[e := s.execs[e].(phase := Failed)])
      else State(s.tx.(status := Prepared),
          s.execs[e := s.execs[e].(phase := Committing, waiting := s.tx.participants)])
    case CommitAnswer(e, shard, ok) => s.(execs := s.execs[e := HearCommit(s.execs[e], shard, ok)])
    case EndCommit(e) =>
      if s.execs[e].error
      then State(s.tx.(status := Aborted), s.execs[e := s.execs[e].(phase := Failed)])
      else State(s.tx.(status := Committed), s.execs[e := s.execs[e].(phase := Succeeded)])
  }

  ghost predicate Run(states: seq<State>, steps: seq<Step>) {
    && |states| == |steps| + 1 && states[0] == START
    && forall i :: 0 <= i < |steps| ==> Enabled(states[i], steps[i]) && states[i + 1] == Next(states[i], steps[i])
  }

  // ----- what every step keeps -----

  /** What one call knows, against the transaction's participants. */
  ghost predicate Faithful(x: Exec, all: set<nat>) {
    && x.waiting <= all && x.voted <= all && x.acked <= x.asked <= all
    && (x.phase == Asking ==> x.asked == {} && x.voted !! x.waiting && (x.error <==> x.voted + x.waiting != all))
    && (x.phase == Committing ==> x.voted == all && x.asked == all - x.waiting && (x.error <==> x.acked != x.asked))
    && (x.phase == Succeeded ==> x.voted == x.asked == x.acked == all)
    && (x.phase == Failed ==> x.asked == {} || x.asked == all)
    && (x.asked != {} ==> x.voted == all)
  }

  function Shards(operations: seq<nat>): set<nat> {
    set i | 0 <= i < |operations| :: operations[i]
  }

  /** The participants are the shards of the operations, and only they have votes. */
  ghost predicate Recorded(tx: Tx) {
    tx.participants == Shards(tx.operations) && tx.votes.Keys <= tx.participants
  }

  lemma AddRecorded(tx: Tx, route: Option<nat>)
    requires Recorded(tx)
    ensures Recorded(Add(tx, route).0)
  {
    if Add(tx, route).1 {
      var n, more := |tx.operations|, tx.operations + [route.value];
      forall k | k in tx.participants + {route.value} ensures k in Shards(more) {
        if k in tx.participants {
          var i :| 0 <= i < n && tx.operations[i] == k;
          assert more[i] == k;
        } else {
          assert more[n] == k;
        }
      }
    }
  }

  ghost predicate Inv(s: State) {
    && Recorded(s.tx)
    && (s.tx.status == Pending <==> s.execs == [])
    && (forall e :: 0 <= e < |s.execs| ==> Faithful(s.execs[e], s.tx.participants))
    && (|s.execs| == 1 ==>
          (s.tx.status == Committed <==> s.execs[0].phase == Succeeded)
              && (s.tx.status == Aborted <==> s.execs[0].phase == Failed))
  }

  lemma HearVoteKeeps(x: Exec, all: set<nat>, shard: nat, reply: Reply)
    requires Faithful(x, all) && x.phase == Asking && shard in x.waiting
    ensures Faithful(HearVote(x, shard, reply), all)
  {}

  lemma HearCommitKeeps(x: Exec, all: set<nat>, shard: nat, ok: bool)
    requires Faithful(x, all) && x.phase == Committing && shard in x.waiting
    ensures Faithful(HearCommit(x, shard, ok), all)
  {}

  lemma EndKeeps(x: Exec, all: set<nat>)
    requires Faithful(x, all) && x.waiting == {}
    ensures x.phase == Asking || x.phase == Committing ==> Faithful(x.(phase := Failed), all)
    ensures x.phase == Asking && !x.error ==> Faithful(x.(phase := Committing, waiting := all), all)
    ensures x.phase == Committing && !x.error ==> Faithful(x.(phase := Succeeded), all)
  {}

  lemma NextKeeps(s: State, step: Step)
    requires Inv(s) && Enabled(s, step)
    ensures Inv(Next(s, step))
  {
    var all := s.tx.participants;
    match step
    case AddOperation(route) => AddRecorded(s.tx, route);
    case Begin =>
    case PrepareAnswer(e, shard, reply) => HearVoteKeeps(s.execs[e], all, shard, reply);
    case EndPrepare(e) => EndKeeps(s.execs[e], all);
    case CommitAnswer(e, shard, ok) => HearCommitKeeps(s.execs[e], all, shard, ok);
    case EndCommit(e) => EndKeeps(s.execs[e], all);
  }

  lemma {:induction false} RunInv(states: seq<State>, steps: seq<Step>, i: nat)
    requires Run(states, steps) && i < |states|
    ensures Inv(states[i])
    decreases i
  {
    if i > 0 {
      RunInv(states, steps, i - 1);
      NextKeeps(states[i - 1], steps[i - 1]);
    }
  }

  /** A call sends a commit request only after every shard of the transaction's operations voted to commit in that call,
      and it succeeds only if every one of them acknowledged the commit. */
  lemma CommitNeedsAllVotes(states: seq<State>, steps: seq<Step>, i: nat, e: nat)
    requires Run(states, steps) && i < |states| && e < |states[i].execs|
    ensures var x, all := states[i].execs[e], Shards(states[i].tx.operations);
            && states[i].tx.participants == all
            && (x.asked != {} ==> x.voted == all)
            && (x.phase == Succeeded ==> x.voted == all && x.acked == all)
  {
    RunInv(states, steps, i);
  }

  /** Every vote to commit that a call heard is in the transaction's record, perhaps overwritten by another call. */
  ghost predicate VotesKept(s: State) {
    forall e :: 0 <= e < |s.execs| ==> s.execs[e].voted <= s.tx.votes.Keys
  }

  lemma {:induction false} RunKeepsVotes(states: seq<State>, steps: seq<Step>, i: nat)
    requires Run(states, steps) && i < |states|
    ensures VotesKept(states[i])
    decreases i
  {
    if i > 0 {
      RunKeepsVotes(states, steps, i - 1);
      assert Enabled(states[i - 1], steps[i - 1]) && states[i] == Next(states[i - 1], steps[i - 1]);
    }
  }

  /** When the prepare phase of a call ends, the call goes on to commit if and only if every participant voted to commit
      in this call and no overlapping call has put another vote on record since; otherwise it fails and the transaction
      is aborted. */
  lemma CommitPhaseExactly(states: seq<State>, steps: seq<Step>, i: nat, e: nat)
    requires Run(states, steps) && i < |steps| && steps[i] == EndPrepare(e)
    ensures Enabled(states[i], steps[i])
    ensures var s, s' := states[i], states[i + 1];
            && (s'.execs[e].phase == Committing <==>
                && s.execs[e].voted == s.tx.participants
                && forall k :: k in s.tx.participants ==> k in s.tx.votes && s.tx.votes[k] == Commit)
            && (s'.execs[e].phase != Committing ==> s'.execs[e].phase == Failed && s'.tx.status == Aborted)
  {
    RunInv(states, steps, i);
    RunKeepsVotes(states, steps, i);
  }

  /** When the commit phase of a call ends, the call succeeds and the transaction is committed if and only if every
      participant acknowledged the commit; otherwise it fails and the transaction is aborted. */
  lemma SuccessExactly(states: seq<State>, steps: seq<Step>, i: nat, e: nat)
    requires Run(states, steps) && i < |steps| && steps[i] == EndCommit(e)
    ensures Enabled(states[i], steps[i])
    ensures var s, s' := states[i], states[i + 1];
            if s.execs[e].acked == s.tx.participants then s'.execs[e].phase == Succeeded && s'.tx.status == Committed
            else s'.execs[e].phase == Failed && s'.tx.status == Aborted
  {
    RunInv(states, steps, i);
  }

  lemma StepFreezes(s: State, step: Step)
    requires Inv(s) && Enabled(s, step) && s.execs != []
    ensures Next(s, step).execs != [] && Next(s, step).tx.operations == s.tx.operations
  {}

  lemma {:induction false} OperationsFrozen(states: seq<State>, steps: seq<Step>, i: nat, j: nat)
    requires Run(states, steps) && i <= j < |states| && states[i].execs != []
    ensures states[j].execs != [] && states[j].tx.operations == states[i].tx.operations
    decreases j
  {
    if i < j {
      OperationsFrozen(states, steps, i, j - 1);
      RunInv(states, steps, j - 1);
      StepFreezes(states[j - 1], steps[j - 1]);
    }
  }

  /** Once a call has begun, the operations and the participants stay as they are. */
  lemma ParticipantsFrozen(states: seq<State>, steps: seq<Step>, i: nat, j: nat)
    requires Run(states, steps) && i <= j < |states| && states[i].execs != []
    ensures states[j].execs != [] && states[j].tx.operations == states[i].tx.operations
    ensures states[j].tx.participants == states[i].tx.participants
  {
    OperationsFrozen(states, steps, i, j);
    RunInv(states, steps, i);
    RunInv(states, steps, j);
  }

  /** When the transaction is executed once, its status tells how the call ended. */
  lemma OneExecution(states: seq<State>, steps: seq<Step>, i: nat)
    requires Run(states, steps) && i < |states| && |states[i].execs| == 1
    ensures states[i].tx.status == Committed <==> states[i].execs[0].phase == Succeeded
    ensures states[i].tx.status == Aborted <==> states[i].execs[0].phase == Failed
  {
    RunInv(states, steps, i);
  }

  // ----- finality and atomicity, exactly -----

  /** A step that can take a transaction out of the committed status. */
  predicate Undoes(s: State, step: Step)
    requires Enabled(s, step)
  {
    step.Begin? || step.EndPrepare? || (step.EndCommit? && s.execs[step.e].error)
  }

  lemma StaysCommitted(s: State, step: Step)
    requires Enabled(s, step) && s.tx.status == Committed
    ensures Next(s, step).tx.status == Committed <==> !Undoes(s, step)
  {}

  /** Along a run, a committed transaction stays committed exactly as long as no call begins, ends its prepare phase, or
      ends its commit phase with an error. */
  lemma {:induction false} CommittedUntilUndone(states: seq<State>, steps: seq<Step>, i: nat, j: nat)
    requires Run(states, steps) && i <= j < |states| && states[i].tx.status == Committed
    ensures (forall k :: i <= k <= j ==> states[k].tx.status == Committed) <==>
            (forall k :: i <= k < j ==> !Undoes(states[k], steps[k]))
    decreases j
  {
    if i < j {
      CommittedUntilUndone(states, steps, i, j - 1);
      if states[j - 1].tx.status == Committed { StaysCommitted(states[j - 1], steps[j - 1]); }
      assert Enabled(states[j - 1], steps[j - 1]) && states[j - 1 + 1] == Next(states[j - 1], steps[j - 1]);
    }
  }

  /** What may follow a state while no further call begins. */
  ghost predicate Onward(s: State, states: seq<State>, steps: seq<Step>) {
    && |states| == |steps| + 1 && states[0] == s
    && forall i :: 0 <= i < |steps| ==> Goes(states[i], steps[i], states[i + 1])
  }

  ghost predicate Goes(s: State, step: Step, s': State) {
    !step.Begin? && Enabled(s, step) && s' == Next(s, step)
  }

  /** The call has ended, or can only end by succeeding. */
  predicate AtRest(x: Exec) {
    x.phase == Succeeded || x.phase == Failed || (x.phase == Committing && x.waiting == {} && !x.error)
  }

  ghost predicate AllAtRest(s: State) {
    forall e :: 0 <= e < |s.execs| ==> AtRest(s.execs[e])
  }

  lemma RestKeeps(s: State, step: Step, s': State)
    requires Goes(s, step, s') && s.tx.status == Committed && AllAtRest(s)
    ensures s'.tx.status == Committed && AllAtRest(s')
  {}

  lemma {:induction false} RestStays(s: State, states: seq<State>, steps: seq<Step>, i: nat)
    requires Onward(s, states, steps) && i <= |steps| && s.tx.status == Committed && AllAtRest(s)
    ensures states[i].tx.status == Committed && AllAtRest(states[i])
    decreases i
  {
    if i > 0 {
      RestStays(s, states, steps, i - 1);
      assert states[i - 1 + 1] == states[i];
      RestKeeps(states[i - 1], steps[i - 1], states[i]);
    }
  }

  lemma FirstGoes(s: State, step: Step, s': State, states: seq<State>, steps: seq<Step>)
    requires Goes(s, step, s') && Onward(s', states, steps)
    ensures Onward(s, [s] + states, [step] + steps)
  {
    var all, acts := [s] + states, [step] + steps;
    forall i | 0 <= i < |acts| ensures Goes(all[i], acts[i], all[i + 1]) {
      if i > 0 { assert Goes(states[i - 1], steps[i - 1], states[i - 1 + 1]); }
    }
  }

  /** The shards that are still to answer answer with an error, and the call ends. */
  lemma {:induction false} CallCanUndo(s: State, e: nat) returns (states: seq<State>, steps: seq<Step>)
    requires e < |s.execs| && !AtRest(s.execs[e])
    ensures Onward(s, states, steps) && states[|steps|].tx.status != Committed
    decreases |s.execs[e].waiting|
  {
    var x := s.execs[e];
    if x.waiting == {} {
      var last := if x.phase == Asking then EndPrepare(e) else EndCommit(e);
      states, steps := [s, Next(s, last)], [last];
      assert Goes(s, last, Next(s, last));
    } else {
      var shard :| shard in x.waiting;
      var step := if x.phase == Asking then PrepareAnswer(e, shard, Error) else CommitAnswer(e, shard, false);
      var s' := Next(s, step);
      assert s'.execs[e].waiting == x.waiting - {shard};
      states, steps := CallCanUndo(s', e);
      FirstGoes(s, step, s', states, steps);
      states, steps := [s] + states, [step] + steps;
    }
  }

  /** A committed transaction stays committed, whatever happens before a further call begins, if and only if every call
      has ended or is committing with all its requests acknowledged. */
  lemma CommittedIsFinalExactly(s: State)
    requires s.tx.status == Committed
    ensures (forall states: seq<State>, steps: seq<Step> ::
               Onward(s, states, steps) ==> states[|steps|].tx.status == Committed) <==> AllAtRest(s)
  {
    if AllAtRest(s) {
      forall states: seq<State>, steps: seq<Step> | Onward(s, states, steps)
        ensures states[|steps|].tx.status == Committed
      {
        RestStays(s, states, steps, |steps|);
      }
    } else {
      var e :| 0 <= e < |s.execs| && !AtRest(s.execs[e]);
      var states, steps := CallCanUndo(s, e);
    }
  }

  /** The shard answered a commit request of the call this way before step i. */
  ghost predicate Answered(steps: seq<Step>, i: nat, e: nat, shard: nat, ok: bool)
    requires i <= |steps|
  {
    exists k :: 0 <= k < i && steps[k] == CommitAnswer(e, shard, ok)
  }

  lemma {:induction false} CallsAccumulate(states: seq<State>, steps: seq<Step>, i: nat, j: nat)
    requires Run(states, steps) && i <= j < |states|
    ensures |states[i].execs| <= |states[j].execs|
    decreases j
  {
    if i < j { CallsAccumulate(states, steps, i, j - 1); }
  }

  lemma NoAnswersYet(states: seq<State>, steps: seq<Step>, i: nat, e: nat, shard: nat, ok: bool)
    requires Run(states, steps) && i < |states| && |states[i].execs| <= e
    ensures !Answered(steps, i, e, shard, ok)
  {
    forall k | 0 <= k < i ensures steps[k] != CommitAnswer(e, shard, ok) {
      CallsAccumulate(states, steps, k, i);
      assert Enabled(states[k], steps[k]);
    }
  }

  lemma AnsweredNext(steps: seq<Step>, i: nat, e: nat, shard: nat, ok: bool)
    requires i < |steps|
    ensures Answered(steps, i + 1, e, shard, ok) <==>
            Answered(steps, i, e, shard, ok) || steps[i] == CommitAnswer(e, shard, ok)
  {}

  lemma StepCounts(s: State, step: Step, e: nat, shard: nat)
    requires Inv(s) && Enabled(s, step) && e < |s.execs|
    ensures e < |Next(s, step).execs|
    ensures var x, y := s.execs[e], Next(s, step).execs[e];
            && (shard in y.acked <==> shard in x.acked || step == CommitAnswer(e, shard, true))
            && (shard in y.asked - y.acked <==> shard in x.asked - x.acked || step == CommitAnswer(e, shard, false))
  {}

  lemma NewCallUnasked(s: State, step: Step, e: nat)
    requires Enabled(s, step) && |s.execs| <= e < |Next(s, step).execs|
    ensures step == Begin && Next(s, step).execs[e].asked == {} == Next(s, step).execs[e].acked
  {}

  /** A call's acknowledgements and refusals are the answers it was given. */
  lemma {:induction false} AnswersCounted(states: seq<State>, steps: seq<Step>, i: nat, e: nat, shard: nat)
    requires Run(states, steps) && i < |states| && e < |states[i].execs|
    ensures var x := states[i].execs[e];
            && (shard in x.acked <==> Answered(steps, i, e, shard, true))
            && (shard in x.asked - x.acked <==> Answered(steps, i, e, shard, false))
    decreases i
  {
    if i > 0 {
      var s, step := states[i - 1], steps[i - 1];
      assert Enabled(s, step) && states[i - 1 + 1] == Next(s, step);
      AnsweredNext(steps, i - 1, e, shard, true);
      AnsweredNext(steps, i - 1, e, shard, false);
      if e < |s.execs| {
        AnswersCounted(states, steps, i - 1, e, shard);
        RunInv(states, steps, i - 1);
        StepCounts(s, step, e, shard);
      } else {
        NewCallUnasked(s, step, e);
        NoAnswersYet(states, steps, i - 1, e, shard, true);
        NoAnswersYet(states, steps, i - 1, e, shard, false);
      }
    }
  }

  /** A call that has ended left some shards committed and others not exactly when it was answered both ways. */
  lemma PartialCommitExactly(states: seq<State>, steps: seq<Step>, i: nat, e: nat)
    requires Run(states, steps) && i < |states| && e < |states[i].execs|
    requires states[i].execs[e].phase == Succeeded || states[i].execs[e].phase == Failed
    ensures var x := states[i].execs[e];
            x.acked != {} && x.acked != states[i].tx.participants <==>
            (exists s: nat :: Answered(steps, i, e, s, true)) && (exists s: nat :: Answered(steps, i, e, s, false))
  {
    RunInv(states, steps, i);
    forall s: nat
      ensures s in states[i].execs[e].acked <==> Answered(steps, i, e, s, true)
      ensures s in states[i].execs[e].asked - states[i].execs[e].acked <==> Answered(steps, i, e, s, false)
    {
      AnswersCounted(states, steps, i, e, s);
    }
    var x, all := states[i].execs[e], states[i].tx.participants;
    if x.acked != {} && x.acked != all {
      var s :| s in x.acked;
      assert x.asked == all;
      var t :| t in all && t !in x.acked;
      assert Answered(steps, i, e, s, true) && Answered(steps, i, e, t, false);
    }
  }

  // ----- inputs that show it -----

  ghost predicate Reachable(s: State) {
    exists states, steps :: Run(states, steps) && states[|states| - 1] == s
  }

  lemma StartReachable()
    ensures Reachable(START)
  {
    assert Run([START], []);
    assert [START][|[START]| - 1] == START;
  }

  lemma NextReachable(s: State, step: Step)
    requires Reachable(s) && Enabled(s, step)
    ensures Reachable(Next(s, step))
  {
    var states, steps :| Run(states, steps) && states[|states| - 1] == s;
    var more := states + [Next(s, step)];
    assert Run(more, steps + [step]);
    assert more[|more| - 1] == Next(s, step);
  }

  /** A transaction of operations on shards 1 and 2, voted for by both. */
  lemma TwoShardsPrepared() returns (s: State)
    ensures Reachable(s) && s.tx == Tx(Prepared, [1, 2], {1, 2}, map[1 := Commit, 2 := Commit])
    ensures s.execs == [Exec(Committing, {1, 2}, false, {1, 2}, {}, {})]
  {
    StartReachable();
    s := START;
    NextReachable(s, AddOperation(Some(1)));
    s := Next(s, AddOperation(Some(1)));
    NextReachable(s, AddOperation(Some(2)));
    s := Next(s, AddOperation(Some(2)));
    assert s.tx == Tx(Pending, [1, 2], {1, 2}, map[]);
    NextReachable(s, Begin);
    s := Next(s, Begin);
    NextReachable(s, PrepareAnswer(0, 1, Voted(Commit)));
    s := Next(s, PrepareAnswer(0, 1, Voted(Commit)));
    NextReachable(s, PrepareAnswer(0, 2, Voted(Commit)));
    s := Next(s, PrepareAnswer(0, 2, Voted(Commit)));
    NextReachable(s, EndPrepare(0));
    s := Next(s, EndPrepare(0));
  }

  /** Committing is not atomic: one shard may commit and another fail, and the transaction is then aborted. */
  lemma PartialCommit() returns (s: State)
    ensures Reachable(s) && s.tx.status == Aborted && s.execs != [] && s.execs[0].phase == Failed
            && s.execs[0].acked == {1}
  {
    s := TwoShardsPrepared();
    NextReachable(s, CommitAnswer(0, 1, true));
    s := Next(s, CommitAnswer(0, 1, true));
    NextReachable(s, CommitAnswer(0, 2, false));
    s := Next(s, CommitAnswer(0, 2, false));
    NextReachable(s, EndCommit(0));
    s := Next(s, EndCommit(0));
  }

  /** Committed is not final: executing the transaction again can abort it after it was committed everywhere. */
  lemma CommittedThenAborted() returns (s: State)
    ensures Reachable(s) && s.tx.status == Aborted && s.execs != []
    ensures s.execs[0].phase == Succeeded && s.execs[0].acked == s.tx.participants
  {
    s := TwoShardsPrepared();
    NextReachable(s, CommitAnswer(0, 1, true));
    s := Next(s, CommitAnswer(0, 1, true));
    NextReachable(s, CommitAnswer(0, 2, true));
    s := Next(s, CommitAnswer(0, 2, true));
    NextReachable(s, EndCommit(0));
    s := Next(s, EndCommit(0));
    NextReachable(s, Begin);
    s := Next(s, Begin);
    NextReachable(s, PrepareAnswer(1, 1, Error));
    s := Next(s, PrepareAnswer(1, 1, Error));
    NextReachable(s, PrepareAnswer(1, 2, Error));
    s := Next(s, PrepareAnswer(1, 2, Error));
    NextReachable(s, EndPrepare(1));
    s := Next(s, EndPrepare(1));
  }

  // ----- the coordinator object -----

  predicate Willing(all: set<nat>, prepare: nat -> Reply) {
    forall s :: s in all ==> prepare(s) == Voted(Commit)
  }

  predicate Alike(all: set<nat>, commit: nat -> bool) {
    forall s, t :: s in all && t in all ==> commit(s) == commit(t)
  }

  function Accepting(shards: set<nat>, commit: nat -> bool): set<nat> {
    set s | s in shards && commit(s)
  }

  /** What one call by itself does: whether it succeeds, and the shards asked to commit, acknowledging, and told to
      abort. */
  datatype Outcome = Outcome(ok: bool, asked: set<nat>, acked: set<nat>, told: set<nat>)

  function Executed(all: set<nat>, prepare: nat -> Reply, commit: nat -> bool): Outcome {
    if !Willing(all, prepare) then Outcome(false, {}, {}, all) else
    var acked := Accepting(all, commit);
    Outcome(acked == all, all, acked, if acked == all then {} else all)
  }

  class Coordinator {
    const limit: nat
    var transactions: map<string, Tx>
    var counter: nat

    ghost predicate Valid()
      reads this
    {
      forall id :: id in transactions ==> Recorded(transactions[id])
    }

    constructor (limit: nat)
      ensures Valid() && transactions == map[] && this.limit == limit
    {
      this.limit, transactions, counter := limit, map[], 0;
    }

    /** The name given to the n-th transaction is a parameter. */
    method BeginTransaction(name: nat -> string) returns (id: Option<string>)
      requires Valid()
      modifies this
      ensures Valid() && (id.None? <==> |old(transactions)| >= limit)
      ensures id.None? ==> transactions == old(transactions)
      ensures id.Some? ==> transactions == old(transactions)[id.value := START.tx] && id.value == name(old(counter) + 1)
    {
      if |transactions| >= limit {
        return None;
      }
      counter := counter + 1;
      transactions := transactions[name(counter) := Tx(Pending, [], {}, map[])];
      return Some(name(counter));
    }

    method AddOperation(id: string, route: Option<nat>) returns (added: bool)
      requires Valid()
      modifies this
      ensures Valid() && (id !in old(transactions) ==> !added && transactions == old(transactions))
      ensures id in old(transactions) ==>
                var next := Add(old(transactions)[id], route);
                transactions == old(transactions)[id := next.0] && added == next.1
    {
      if id !in transactions {
        return false;
      }
      var tx := transactions[id];
      AddRecorded(tx, route);
      if tx.status != Pending {
        return false;
      }
      if route.None? {
        return false;
      }
      tx := tx.(operations := tx.operations + [route.value], participants := tx.participants + {route.value});
      transactions := transactions[id := tx];
      added := true;
    }

    /** Marks the transaction and sends an abort request to every participant. */
    method AbortTransaction(id: string, tx: Tx) returns (told: set<nat>)
      modifies this`transactions
      ensures transactions == old(transactions)[id := tx.(status := Aborted)] && told == tx.participants
    {
      transactions := transactions[id := tx.(status := Aborted)];
      told := {};
      var rest := tx.participants;
      while rest != {}
        invariant rest <= tx.participants && told == tx.participants - rest
        invariant transactions == old(transactions)[id := tx.(status := Aborted)]
      {
        var shard :| shard in rest;
        told := told + {shard};
        rest := rest - {shard};
      }
    }

    /** A call on its own: it succeeds exactly when every participant votes to commit and acknowledges the commit, it
        asks every participant to commit or none, and unless it succeeds it tells every participant to abort. */
    method ExecuteTransaction(id: string, prepare: nat -> Reply, commit: nat -> bool)
      returns (ok: bool, asked: set<nat>, acked: set<nat>, told: set<nat>)
      requires Valid()
      modifies this
      ensures Valid()
      ensures id !in old(transactions) ==> !ok && asked == acked == told == {} && transactions == old(transactions)
      ensures id in old(transactions) ==>
                var tx := old(transactions)[id];
                && Outcome(ok, asked, acked, told) == Executed(tx.participants, prepare, commit)
                && told == (if ok then {} else tx.participants)
                && transactions.Keys == old(transactions).Keys
                && transactions[id].status == (if ok then Committed else Aborted)
                && transactions[id].operations == tx.operations && transactions[id].participants == tx.participants
                && forall k :: k in transactions && k != id ==> transactions[k] == old(transactions)[k]
    {
      asked, acked, told := {}, {}, {};
      if id !in transactions {
        return false, {}, {}, {};
      }
      var tx := transactions[id];
      var prepared, votes := PreparePhase(tx, prepare);
      tx := tx.(votes := votes);
      if !prepared {
        told := AbortTransaction(id, tx);
        return false, {}, {}, told;
      }
      ok, asked, acked := CommitPhase(tx, commit);
      if !ok {
        told := AbortTransaction(id, tx);
        return;
      }
      transactions := transactions[id := tx.(status := Committed)];
    }
  }

  /** Asks every participant, in no particular order, and then looks at the recorded votes. */
  method PreparePhase(tx: Tx, prepare: nat -> Reply) returns (ok: bool, votes: map<nat, Vote>)
    requires tx.votes.Keys <= tx.participants
    ensures ok <==> forall s :: s in tx.participants ==> prepare(s) == Voted(Commit)
    ensures votes.Keys <= tx.participants
    ensures forall s :: s in tx.participants && prepare(s).Voted? ==> s in votes && votes[s] == prepare(s).vote
  {
    votes := tx.votes;
    var errors, waiting := false, tx.participants;
    while waiting != {}
      invariant waiting <= tx.participants && votes.Keys <= tx.participants
      invariant errors <==> exists s :: s in tx.participants && s !in waiting && prepare(s) != Voted(Commit)
      invariant forall s :: s in tx.participants && s !in waiting && prepare(s).Voted? ==>
                s in votes && votes[s] == prepare(s).vote
    {
      var s :| s in waiting;
      var reply := prepare(s);
      if reply == Error {
        errors := true;
      } else {
        votes := votes[s := reply.vote];
        if reply.vote == Abort {
          errors := true;
        }
      }
      waiting := waiting - {s};
    }
    if errors {
      return false, votes;
    }
    ok := forall s :: s in votes ==> votes[s] == Commit;
  }

  /** Asks every participant to commit, and collects the acknowledgements. */
  method CommitPhase(tx: Tx, commit: nat -> bool) returns (ok: bool, asked: set<nat>, acked: set<nat>)
    ensures asked == tx.participants && acked == Accepting(asked, commit)
    ensures ok <==> forall s :: s in tx.participants ==> commit(s)
  {
    asked, acked := {}, {};
    var errors, waiting := false, tx.participants;
    while waiting != {}
      invariant waiting <= tx.participants && asked == tx.participants - waiting && acked == Accepting(asked, commit)
      invariant errors <==> exists s :: s in asked && !commit(s)
    {
      var s :| s in waiting;
      asked := asked + {s};
      if commit(s) {
        acked := acked + {s};
      } else {
        errors := true;
      }
      waiting := waiting - {s};
    }
    ok := !errors;
  }

  /** A call succeeds exactly when every participant votes to commit and acknowledges the commit; it asks all of them to
      commit if all vote to, and none otherwise; and it tells all of them to abort exactly when it does not succeed. */
  lemma WhoIsTold(all: set<nat>, prepare: nat -> Reply, commit: nat -> bool)
    ensures var o := Executed(all, prepare, commit);
            && (o.ok <==> forall s :: s in all ==> prepare(s) == Voted(Commit) && commit(s))
            && (forall s :: s in o.asked <==> s in all && forall t :: t in all ==> prepare(t) == Voted(Commit))
            && (forall s :: s in o.acked <==> s in o.asked && commit(s))
            && (forall s :: s in o.told <==> s in all && !o.ok)
  {
    if Executed(all, prepare, commit).ok {
      assert forall s :: s in all ==> s in Accepting(all, commit);
    }
  }

  /** A call ends with all participants committed or none, if and only if some of them does not vote to commit or their
      answers to the commit request agree; in the other case some commit and the call fails. */
  lemma AtomicExactly(all: set<nat>, prepare: nat -> Reply, commit: nat -> bool)
    ensures var o := Executed(all, prepare, commit);
            && (o.acked == {} || o.acked == all <==> !Willing(all, prepare) || Alike(all, commit))
            && (o.ok <==> o.asked == all && o.acked == all)
            && (o.acked != {} && !o.ok <==> Willing(all, prepare) && !Alike(all, commit))
  {
    var o, acked := Executed(all, prepare, commit), Accepting(all, commit);
    if Alike(all, commit) {
      if s :| s in acked {
        assert acked == all;
      } else {
        assert acked == {};
      }
    } else {
      var s, t :| s in all && t in all && commit(s) && !commit(t);
      assert s in acked && t !in acked;
    }
  }
}
