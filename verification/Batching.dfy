/** The per-connection message batcher: queueing, and flushing a batch sorted by priority. */
module Batching {
  import opened Wrappers
  import opened Seqs

  datatype Message = Message(id: string, priority: int, data: string, callback: bool, deadline: Option<int>)

  // ----- sorting by priority -----

  function Has(p: int): Message -> bool {
    (m: Message) => m.priority == p
  }

  ghost predicate Lower(x: Message, s: seq<Message>) {
    forall y :: y in s ==> y.priority <= x.priority
  }

  ghost predicate Descending(s: seq<Message>) {
    s == [] || (Lower(s[0], s[1..]) && Descending(s[1..]))
  }

  /** For every priority, the same messages in the same order. */
  ghost predicate SameOrder(a: seq<Message>, b: seq<Message>) {
    forall p :: Filter(Has(p), a) == Filter(Has(p), b)
  }

  function Place(x: Message, s: seq<Message>): seq<Message> {
    if s == [] || s[0].priority <= x.priority then [x] + s else [s[0]] + Place(x, s[1..])
  }

  /** The stable sort, highest priority first. */
  function ByPriority(s: seq<Message>): seq<Message> {
    if s == [] then [] else Place(s[0], ByPriority(s[1..]))
  }

  lemma {:induction false} PlaceFilter(x: Message, s: seq<Message>, p: int)
    ensures Filter(Has(p), Place(x, s)) == (if x.priority == p then [x] else []) + Filter(Has(p), s)
  {
    if s != [] && s[0].priority > x.priority {
      PlaceFilter(x, s[1..], p);
      assert s == [s[0]] + s[1..];
      FilterCons(Has(p), s[0], s[1..]);
      FilterCons(Has(p), s[0], Place(x, s[1..]));
    } else {
      FilterCons(Has(p), x, s);
    }
  }

  lemma {:induction false} PlaceDescending(x: Message, s: seq<Message>)
    requires Descending(s)
    ensures Descending(Place(x, s)) && forall y :: y in Place(x, s) <==> y == x || y in s
  {
    if s != [] {
      assert s == [s[0]] + s[1..];
      if s[0].priority > x.priority {
        PlaceDescending(x, s[1..]);
        assert Place(x, s)[1..] == Place(x, s[1..]);
      } else {
        assert Place(x, s)[1..] == s;
      }
    }
  }

  lemma {:induction false} ByPriorityStable(s: seq<Message>)
    ensures Descending(ByPriority(s)) && SameOrder(ByPriority(s), s)
  {
    if s != [] {
      ByPriorityStable(s[1..]);
      PlaceDescending(s[0], ByPriority(s[1..]));
      forall p ensures Filter(Has(p), ByPriority(s)) == Filter(Has(p), s) {
        PlaceFilter(s[0], ByPriority(s[1..]), p);
      }
    }
  }

  lemma SameFirstMessage(a: seq<Message>, b: seq<Message>)
    requires Descending(a) && Descending(b) && SameOrder(a, b) && a != []
    ensures b != [] && a[0] == b[0]
  {
    var p := a[0].priority;
    FilterMembers(Has(p), b);
    FilterMembers(Has(p), a);
    assert a[0] in Filter(Has(p), b);
    assert b == [b[0]] + b[1..] && a == [a[0]] + a[1..];
    var q := b[0].priority;
    FilterMembers(Has(q), a);
    FilterMembers(Has(q), b);
    assert b[0] in Filter(Has(q), a);
    assert p == q;
    assert Filter(Has(p), a)[0] == a[0] && Filter(Has(p), b)[0] == b[0];
  }

  /** A stable descending order is unique. */
  lemma {:induction false} StableUnique(a: seq<Message>, b: seq<Message>)
    requires Descending(a) && Descending(b) && SameOrder(a, b)
    ensures a == b
    decreases |a|
  {
    if a == [] {
      if b != [] { SameFirstMessage(b, a); }
    } else {
      SameFirstMessage(a, b);
      forall p ensures Filter(Has(p), a[1..]) == Filter(Has(p), b[1..]) {
        TailFilter(a, p);
        TailFilter(b, p);
      }
      StableUnique(a[1..], b[1..]);
      assert a == [a[0]] + a[1..] && b == [b[0]] + b[1..];
    }
  }

  lemma TailFilter(a: seq<Message>, p: int)
    requires a != []
    ensures Filter(Has(p), a[1..]) == if a[0].priority == p then Filter(Has(p), a)[1..] else Filter(Has(p), a)
  {}

  /** Exchanging two neighbours of different priority disturbs no priority's order. */
  lemma SwapKeeps(s: seq<Message>, j: nat)
    requires j + 1 < |s| && s[j].priority != s[j + 1].priority
    ensures SameOrder(s[j := s[j + 1]][j + 1 := s[j]], s)
  {
    var t := s[j := s[j + 1]][j + 1 := s[j]];
    assert s == s[..j] + ([s[j]] + [s[j + 1]]) + s[j + 2..];
    assert t == s[..j] + ([s[j + 1]] + [s[j]]) + s[j + 2..];
    forall p ensures Filter(Has(p), t) == Filter(Has(p), s) {
      FilterConcat(Has(p), s[..j] + ([s[j]] + [s[j + 1]]), s[j + 2..]);
      FilterConcat(Has(p), s[..j] + ([s[j + 1]] + [s[j]]), s[j + 2..]);
      FilterConcat(Has(p), s[..j], [s[j]] + [s[j + 1]]);
      FilterConcat(Has(p), s[..j], [s[j + 1]] + [s[j]]);
      FilterConcat(Has(p), [s[j]], [s[j + 1]]);
      FilterConcat(Has(p), [s[j + 1]], [s[j]]);
    }
  }

  lemma {:induction false} DescendingFrom(s: seq<Message>)
    requires forall i, j :: 0 <= i < j < |s| ==> s[i].priority >= s[j].priority
    ensures Descending(s)
  {
    if s != [] { DescendingFrom(s[1..]); }
  }

  /** Everything before place m is at least as urgent as everything from m on, which is in order. */
  ghost predicate Settled(s: seq<Message>, m: int) {
    forall i, j :: 0 <= i < j < |s| && m <= j ==> s[i].priority >= s[j].priority
  }

  /** The message at place j is the least urgent so far. */
  ghost predicate Least(s: seq<Message>, j: nat)
    requires j < |s|
  {
    forall i :: 0 <= i < j ==> s[i].priority >= s[j].priority
  }

  lemma SwapSettled(s: seq<Message>, j: nat, m: int)
    requires j + 1 < m <= |s| && Settled(s, m) && Least(s, j)
    ensures var t := if s[j].priority < s[j + 1].priority then s[j := s[j + 1]][j + 1 := s[j]] else s;
            Settled(t, m) && Least(t, j + 1)
  {}

  /** The bubble sort of a batch, in place: highest priority first, and equal priorities stay in the order they came. */
  method SortByPriority(a: array<Message>)
    modifies a
    ensures a[..] == ByPriority(old(a[..]))
  {
    ghost var before := a[..];
    var n := a.Length;
    var i := 0;
    while i < n - 1
      invariant 0 <= i <= n && SameOrder(a[..], before) && Settled(a[..], n - i)
    {
      var j := 0;
      while j < n - i - 1
        invariant 0 <= j <= n - i - 1 && SameOrder(a[..], before) && Settled(a[..], n - i) && Least(a[..], j)
      {
        SwapSettled(a[..], j, n - i);
        if a[j].priority < a[j + 1].priority {
          SwapKeeps(a[..], j);
          ghost var s := a[..];
          a[j], a[j + 1] := a[j + 1], a[j];
          assert a[..] == s[j := s[j + 1]][j + 1 := s[j]];
        }
        j := j + 1;
      }
      i := i + 1;
    }
    DescendingFrom(a[..]);
    ByPriorityStable(before);
    StableUnique(a[..], ByPriority(before));
  }

  // ----- queueing and flushing -----

  /** The batcher, with the batches handed to the sender and the messages whose callbacks ran. */
  datatype Batcher = Batcher(
    running: bool, pending: seq<Message>, bytes: int, sent: seq<seq<Message>>, notified: seq<Message>)

  function Wants(): Message -> bool {
    (m: Message) => m.callback
  }

  predicate Late(msg: Message, now: int) {
    msg.deadline.Some? && now > msg.deadline.value
  }

  /** The answer is whether the message was taken. */
  function Queue(b: Batcher, msg: Message, now: int): (Batcher, bool) {
    if !b.running then (b, false)
    else if Late(msg, now) then (b.(notified := b.notified + Filter(Wants(), [msg])), false)
    else (b.(pending := b.pending + [msg], bytes := b.bytes + |msg.data|), true)
  }

  function Flush(b: Batcher): Batcher {
    if b.pending == [] then b else
    var batch := ByPriority(b.pending);
    b.(pending := [], bytes := 0, sent := b.sent + [batch], notified := b.notified + Filter(Wants(), batch))
  }

  datatype Event = Queued(msg: Message, now: int) | Flushed | Stopped

  /** What a run leaves: the batcher, the messages it took, and those it turned down as late. */
  datatype Outcome = Outcome(batcher: Batcher, accepted: seq<Message>, late: seq<Message>)

  function Play(events: seq<Event>): Outcome {
    if events == [] then Outcome(Batcher(true, [], 0, [], []), [], []) else
    var past := Play(events[..|events| - 1]);
    match events[|events| - 1]
    case Flushed => past.(batcher := Flush(past.batcher))
    case Stopped => past.(batcher := past.batcher.(running := false))
    case Queued(msg, now) =>
      var (b, taken) := Queue(past.batcher, msg, now);
      Outcome(b, if taken then past.accepted + [msg] else past.accepted,
        if past.batcher.running && Late(msg, now) then past.late + [msg] else past.late)
  }

  function Concat(batches: seq<seq<Message>>): seq<Message> {
    if batches == [] then [] else Concat(batches[..|batches| - 1]) + batches[|batches| - 1]
  }

  function DataLength(s: seq<Message>): nat {
    if s == [] then 0 else DataLength(s[..|s| - 1]) + |s[|s| - 1].data|
  }

  ghost predicate EachDescending(sent: seq<seq<Message>>) {
    forall i :: 0 <= i < |sent| ==> sent[i] != [] && Descending(sent[i])
  }

  /** Callbacks ran for what was sent and for what was late, each as often. */
  ghost predicate CalledBack(notified: seq<Message>, done: seq<Message>, late: seq<Message>) {
    multiset(notified) == multiset(Filter(Wants(), done)) + multiset(Filter(Wants(), late))
  }

  ghost predicate Orderly(o: Outcome) {
    && SameOrder(Concat(o.batcher.sent) + o.batcher.pending, o.accepted)
    && o.batcher.bytes == DataLength(o.batcher.pending)
    && EachDescending(o.batcher.sent)
    && CalledBack(o.batcher.notified, Concat(o.batcher.sent), o.late)
  }

  lemma SameOrderConcat(a: seq<Message>, b: seq<Message>, c: seq<Message>, d: seq<Message>)
    requires SameOrder(a, b) && SameOrder(c, d)
    ensures SameOrder(a + c, b + d)
  {
    forall p ensures Filter(Has(p), a + c) == Filter(Has(p), b + d) {
      FilterConcat(Has(p), a, c);
      FilterConcat(Has(p), b, d);
    }
  }

  lemma ConcatSnoc(batches: seq<seq<Message>>, batch: seq<Message>)
    ensures Concat(batches + [batch]) == Concat(batches) + batch
  {
    assert (batches + [batch])[..|batches|] == batches;
  }

  lemma SameOrderSameLength(a: seq<Message>, b: seq<Message>)
    requires SameOrder(a, b)
    ensures |a| == |b|
  {
    SameOrderSameMessages(a, b);
    assert |a| == |multiset(a)| && |b| == |multiset(b)|;
  }

  lemma SendInOrder(done: seq<Message>, pending: seq<Message>, batch: seq<Message>, accepted: seq<Message>)
    requires SameOrder(done + pending, accepted) && SameOrder(batch, pending)
    ensures SameOrder(done + batch, accepted)
  {
    SameOrderConcat(done, done, batch, pending);
  }

  lemma SendCallsBack(notified: seq<Message>, done: seq<Message>, batch: seq<Message>, late: seq<Message>)
    requires CalledBack(notified, done, late)
    ensures CalledBack(notified + Filter(Wants(), batch), done + batch, late)
  {
    FilterConcat(Wants(), done, batch);
  }

  lemma FlushOrderly(o: Outcome)
    requires Orderly(o)
    ensures Orderly(o.(batcher := Flush(o.batcher)))
  {
    var b := o.batcher;
    if b.pending != [] {
      var batch, done := ByPriority(b.pending), Concat(b.sent);
      ByPriorityStable(b.pending);
      SameOrderSameLength(batch, b.pending);
      ConcatSnoc(b.sent, batch);
      SendInOrder(done, b.pending, batch, o.accepted);
      assert done + batch + [] == done + batch;
      SendCallsBack(b.notified, done, batch, o.late);
    }
  }

  lemma LateCallsBack(notified: seq<Message>, done: seq<Message>, late: seq<Message>, msg: Message)
    requires CalledBack(notified, done, late)
    ensures CalledBack(notified + Filter(Wants(), [msg]), done, late + [msg])
  {
    FilterConcat(Wants(), late, [msg]);
  }

  lemma TakeInOrder(done: seq<Message>, pending: seq<Message>, accepted: seq<Message>, msg: Message)
    requires SameOrder(done + pending, accepted)
    ensures SameOrder(done + (pending + [msg]), accepted + [msg])
  {
    SameOrderConcat(done + pending, accepted, [msg], [msg]);
    assert done + pending + [msg] == done + (pending + [msg]);
  }

  lemma DataLengthSnoc(pending: seq<Message>, msg: Message)
    ensures DataLength(pending + [msg]) == DataLength(pending) + |msg.data|
  {
    assert (pending + [msg])[..|pending|] == pending;
  }

  lemma LateOrderly(o: Outcome, msg: Message, now: int)
    requires Orderly(o) && o.batcher.running && Late(msg, now)
    ensures Orderly(Outcome(Queue(o.batcher, msg, now).0, o.accepted, o.late + [msg]))
  {
    LateCallsBack(o.batcher.notified, Concat(o.batcher.sent), o.late, msg);
  }

  lemma QueueOrderly(o: Outcome, msg: Message, now: int)
    requires Orderly(o) && o.batcher.running && !Late(msg, now)
    ensures Orderly(Outcome(Queue(o.batcher, msg, now).0, o.accepted + [msg], o.late))
  {
    TakeInOrder(Concat(o.batcher.sent), o.batcher.pending, o.accepted, msg);
    DataLengthSnoc(o.batcher.pending, msg);
  }

  /** Over any run: within each priority, messages leave in the order they were taken, none lost and none twice; the
      byte count is that of the pending data; each batch is in priority order; and callbacks ran exactly for what was
      sent or turned down as late. */
  lemma {:induction false} RunOrderly(events: seq<Event>)
    ensures Orderly(Play(events))
    decreases |events|
  {
    if events != [] {
      var last := events[|events| - 1];
      RunOrderly(events[..|events| - 1]);
      var past := Play(events[..|events| - 1]);
      match last
      case Flushed => FlushOrderly(past);
      case Stopped =>
      case Queued(msg, now) =>
        if past.batcher.running {
          if Late(msg, now) { LateOrderly(past, msg, now); } else { QueueOrderly(past, msg, now); }
        }
    }
  }

  /** The messages offered before the stop, each with the moment of the offer. */
  function Offers(events: seq<Event>): seq<(Message, int)> {
    if events == [] then [] else
    var past, last := Offers(events[..|events| - 1]), events[|events| - 1];
    if last.Queued? && Stopped !in events then past + [(last.msg, last.now)] else past
  }

  function InTime(): ((Message, int)) -> bool {
    (offer: (Message, int)) => offer.0.deadline.None? || offer.1 <= offer.0.deadline.value
  }

  function TooLate(): ((Message, int)) -> bool {
    (offer: (Message, int)) => offer.0.deadline.Some? && offer.0.deadline.value < offer.1
  }

  function Messages(offers: seq<(Message, int)>): seq<Message> {
    seq(|offers|, i requires 0 <= i < |offers| => offers[i].0)
  }

  lemma OfferSnoc(f: ((Message, int)) -> bool, past: seq<(Message, int)>, offer: (Message, int))
    ensures Messages(Filter(f, past + [offer])) ==
            Messages(Filter(f, past)) + (if f(offer) then [offer.0] else [])
  {
    FilterSnoc(f, past, offer);
  }

  /** Over any run, the messages taken are those offered before the stop that have no deadline or are offered no later
      than it, in the order of the offers; the late ones are the others offered before the stop. */
  lemma {:induction false} TakesInTime(events: seq<Event>)
    ensures Play(events).batcher.running <==> Stopped !in events
    ensures Play(events).accepted == Messages(Filter(InTime(), Offers(events)))
    ensures Play(events).late == Messages(Filter(TooLate(), Offers(events)))
    decreases |events|
  {
    if events != [] {
      var past, last := events[..|events| - 1], events[|events| - 1];
      assert events == past + [last];
      TakesInTime(past);
      if last.Queued? && Stopped !in events {
        OfferSnoc(InTime(), Offers(past), (last.msg, last.now));
        OfferSnoc(TooLate(), Offers(past), (last.msg, last.now));
      }
    }
  }

  /** A flush sends whatever was pending, as one batch, and leaves nothing. */
  lemma FlushSendsAll(events: seq<Event>)
    ensures var was, next := Play(events).batcher, Play(events + [Flushed]).batcher;
            && next.pending == [] && next.bytes == 0
            && multiset(Concat(next.sent)) == multiset(Play(events).accepted)
            && was.sent <= next.sent && |next.sent| == |was.sent| + (if was.pending == [] then 0 else 1)
  {
    var after := events + [Flushed];
    assert after[..|events|] == events;
    RunOrderly(events);
    Conservation(after, Message("", 0, "", false, None));
  }

  /** The same order within each priority means the same messages, each as often. */
  lemma SameOrderSameMessages(a: seq<Message>, b: seq<Message>)
    requires SameOrder(a, b)
    ensures multiset(a) == multiset(b)
  {
    forall m ensures multiset(a)[m] == multiset(b)[m] {
      FilterCount(Has(m.priority), a, m);
      FilterCount(Has(m.priority), b, m);
    }
  }

  /** Every message taken is in one batch or still pending, and the callback of a message offered once runs at most
      once. */
  lemma Conservation(events: seq<Event>, m: Message)
    ensures var o := Play(events);
            && multiset(Concat(o.batcher.sent)) + multiset(o.batcher.pending) == multiset(o.accepted)
            && multiset(o.batcher.notified)[m] <= multiset(o.accepted)[m] + multiset(o.late)[m]
  {
    var o := Play(events);
    RunOrderly(events);
    SameOrderSameMessages(Concat(o.batcher.sent) + o.batcher.pending, o.accepted);
    FilterCount(Wants(), Concat(o.batcher.sent), m);
    FilterCount(Wants(), o.late, m);
  }

  class ConnectionBatcher {
    var running: bool
    var pendingMsgs: seq<Message>
    var pendingBytes: int
    var sent: seq<seq<Message>>
    var notified: seq<Message>

    ghost function Model(): Batcher
      reads this
    {
      Batcher(running, pendingMsgs, pendingBytes, sent, notified)
    }

    constructor ()
      ensures Model() == Play([]).batcher
    {
      running, pendingMsgs, pendingBytes, sent, notified := true, [], 0, [], [];
    }

    method QueueMessage(msg: Message, now: int) returns (taken: bool)
      modifies this
      ensures (Model(), taken) == Queue(old(Model()), msg, now)
    {
      if !running {
        return false;
      }
      if msg.deadline.Some? && now > msg.deadline.value {
        assert Filter(Wants(), [msg]) == if msg.callback then [msg] else [];
        assert notified + [] == notified;
        if msg.callback {
          notified := notified + [msg];
        }
        return false;
      }
      pendingMsgs := pendingMsgs + [msg];
      pendingBytes := pendingBytes + |msg.data|;
      taken := true;
    }

    method FlushPending()
      modifies this
      ensures Model() == Flush(old(Model()))
    {
      if |pendingMsgs| == 0 {
        return;
      }
      var messages := new Message[|pendingMsgs|](i requires 0 <= i < |pendingMsgs| reads this => pendingMsgs[i]);
      assert messages[..] == pendingMsgs;
      pendingMsgs := [];
      pendingBytes := 0;
      SortByPriority(messages);
      sent := sent + [messages[..]];
      RunCallbacks(messages[..]);
    }

    method RunCallbacks(batch: seq<Message>)
      modifies `notified
      ensures notified == old(notified) + Filter(Wants(), batch)
    {
      var i := 0;
      while i < |batch|
        invariant 0 <= i <= |batch| && notified == old(notified) + Filter(Wants(), batch[..i])
      {
        assert batch[..i + 1] == batch[..i] + [batch[i]];
        FilterSnoc(Wants(), batch[..i], batch[i]);
        if batch[i].callback {
          notified := notified + [batch[i]];
        }
        i := i + 1;
      }
      assert batch[..i] == batch;
    }
  }
}
