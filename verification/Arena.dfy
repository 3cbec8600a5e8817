/** The memory arena: bump allocation, first-fit reuse of freed chunks, and coalescing. */
module Arena {
  import opened Wrappers

  datatype Chunk = Chunk(offset: int, size: int, inUse: bool)

  datatype State = State(capacity: int, offset: int, account: int, chunks: seq<Chunk>)

  /** Rounds up to a multiple of 8, by clearing the low three bits. */
  function Align(size: int): int {
    (size + 7) / 8 * 8
  }

  /** The first free chunk from position i on that is large enough, or the number of chunks. */
  function FirstFit(chunks: seq<Chunk>, size: int, i: nat): (k: nat)
    requires i <= |chunks|
    ensures i <= k <= |chunks|
    ensures k < |chunks| ==> !chunks[k].inUse && chunks[k].size >= size
    ensures forall j :: i <= j < k ==> chunks[j].inUse || chunks[j].size < size
    decreases |chunks| - i
  {
    if i == |chunks| || (!chunks[i].inUse && chunks[i].size >= size) then i else FirstFit(chunks, size, i + 1)
  }

  /** The first chunk from position i on that is in use at this offset, or the number of chunks. */
  function FirstUsed(chunks: seq<Chunk>, offset: int, i: nat): (k: nat)
    requires i <= |chunks|
    ensures i <= k <= |chunks|
    ensures k < |chunks| ==> chunks[k].inUse && chunks[k].offset == offset
    ensures forall j :: i <= j < k ==> !(chunks[j].inUse && chunks[j].offset == offset)
    decreases |chunks| - i
  {
    if i == |chunks| || (chunks[i].inUse && chunks[i].offset == offset) then i else FirstUsed(chunks, offset, i + 1)
  }

  /** Takes room at the end of the used part, or else in a freed chunk, which shrinks to the request. */
  function FindFreeSpace(a: State, size: int): (State, Option<int>) {
    if a.offset + size <= a.capacity then (a.(offset := a.offset + size), Some(a.offset)) else
    var k := FirstFit(a.chunks, size, 0);
    if k == |a.chunks| then (a, None)
    else (a.(chunks := a.chunks[k := Chunk(a.chunks[k].offset, size, true)]), Some(a.chunks[k].offset))
  }

  /** Every allocation appends a record, also when it reuses a chunk that has one. */
  function Allocate(a: State, size: int): (State, Option<int>) {
    var (b, place) := FindFreeSpace(a, Align(size));
    match place
    case None => (b, None)
    case Some(o) =>
      (b.(chunks := b.chunks + [Chunk(o, Align(size), true)], account := b.account + Align(size)), Some(o))
  }

  predicate Mergeable(c: Chunk, d: Chunk) {
    !c.inUse && !d.inUse && c.offset + c.size == d.offset
  }

  /** The two neighbours from position i become one. */
  function MergeAt(chunks: seq<Chunk>, i: nat): seq<Chunk>
    requires i + 1 < |chunks|
  {
    chunks[..i] + [Chunk(chunks[i].offset, chunks[i].size + chunks[i + 1].size, false)] + chunks[i + 2..]
  }

  function Coalesce(chunks: seq<Chunk>, i: nat): seq<Chunk>
    decreases |chunks| - i
  {
    if i + 1 >= |chunks| then chunks
    else if Mergeable(chunks[i], chunks[i + 1]) then Coalesce(MergeAt(chunks, i), i)
    else Coalesce(chunks, i + 1)
  }

  function Release(a: State, offset: int): State {
    var k := FirstUsed(a.chunks, offset, 0);
    if k == |a.chunks| then a
    else a.(chunks := a.chunks[k := a.chunks[k].(inUse := false)], account := a.account - a.chunks[k].size)
  }

  function Deallocate(a: State, offset: int): State {
    var b := Release(a, offset);
    b.(chunks := Coalesce(b.chunks, 0))
  }

  // ----- what the callers hold -----

  ghost function Total(live: map<int, int>): int {
    if o :| o in live then live[o] + Total(live - {o}) else 0
  }

  /** Live regions lie in the arena, 8-aligned and apart from each other, and add up to the account. */
  ghost predicate Safe(a: State, live: map<int, int>) {
    && (forall o :: o in live ==> 0 <= o && o % 8 == 0 && live[o] >= 0 && live[o] % 8 == 0 && o + live[o] <= a.capacity)
    && (forall o, p :: o in live && p in live && o != p ==> o + live[o] <= p || p + live[p] <= o)
    && a.account == Total(live)
  }

  datatype Call = Alloc(size: int) | Free(offset: int)

  /** Callers ask for some bytes, and give back only what they hold. */
  ghost predicate Proper(live: map<int, int>, call: Call) {
    match call
    case Alloc(size) => size > 0
    case Free(offset) => offset in live
  }

  /** The arena and the callers' regions after a call. */
  ghost function After(a: State, live: map<int, int>, call: Call): (State, map<int, int>) {
    match call
    case Alloc(size) =>
      var (b, place) := Allocate(a, size);
      (b, if place.Some? then live[place.value := Align(size)] else live)
    case Free(offset) => (Deallocate(a, offset), live - {offset})
  }

  // ----- the records that matter, and the duplicates that do not -----

  /** Primary records describe aligned, non-empty stretches of the used part. */
  ghost predicate Fits(a: State, primary: seq<bool>)
    requires |primary| == |a.chunks|
  {
    forall i :: 0 <= i < |primary| && primary[i] ==>
                  && 0 <= a.chunks[i].offset && a.chunks[i].offset % 8 == 0
                  && a.chunks[i].size > 0 && a.chunks[i].size % 8 == 0
                  && a.chunks[i].offset + a.chunks[i].size <= a.offset
  }

  /** Primary records lie in order and apart. */
  ghost predicate Apart(chunks: seq<Chunk>, primary: seq<bool>)
    requires |primary| == |chunks|
  {
    forall i, j :: 0 <= i < j < |primary| && primary[i] && primary[j] ==>
                     chunks[i].offset + chunks[i].size <= chunks[j].offset
  }

  /** Duplicates stay in use for ever, behind the primary record of their offset. */
  ghost predicate Inert(a: State, primary: seq<bool>)
    requires |primary| == |a.chunks|
  {
    && (forall j :: 0 <= j < |primary| && !primary[j] ==>
                      a.chunks[j].inUse && a.chunks[j].size > 0 && a.chunks[j].offset < a.offset)
    && (forall i, j :: 0 <= i < |primary| && 0 <= j < |primary| && primary[i] && !primary[j] ==>
                         a.chunks[j].offset == a.chunks[i].offset ==> i < j)
  }

  /** `primary` marks the records made by bump allocation; the others duplicate a reused chunk. */
  ghost predicate Sound(a: State, primary: seq<bool>) {
    && |primary| == |a.chunks| && 0 <= a.offset <= a.capacity && a.offset % 8 == 0
    && Fits(a, primary) && Apart(a.chunks, primary) && Inert(a, primary)
  }

  /** Chunk i is the primary record of a region in use at offset o. */
  ghost predicate Backs(chunks: seq<Chunk>, primary: seq<bool>, i: int, o: int)
    requires |primary| == |chunks|
  {
    0 <= i < |chunks| && primary[i] && chunks[i].inUse && chunks[i].offset == o
  }

  /** The regions held by callers are those with a primary record in use. */
  ghost predicate Covers(chunks: seq<Chunk>, primary: seq<bool>, live: map<int, int>)
    requires |primary| == |chunks|
  {
    && (forall i, o :: Backs(chunks, primary, i, o) ==> o in live && live[o] == chunks[i].size)
    && (forall o :: o in live ==> exists i :: Backs(chunks, primary, i, o))
  }

  ghost predicate Inv(a: State, primary: seq<bool>, live: map<int, int>) {
    Sound(a, primary) && Covers(a.chunks, primary, live) && a.account == Total(live)
  }

  // ----- totals -----

  lemma {:induction false} TotalWithout(live: map<int, int>, o: int)
    requires o in live
    ensures Total(live) == live[o] + Total(live - {o})
    decreases |live|
  {
    var p :| p in live && Total(live) == live[p] + Total(live - {p});
    if p != o {
      assert |live - {p}| < |live| && |live - {o}| < |live| by {
        assert (live - {p}).Keys == live.Keys - {p} && (live - {o}).Keys == live.Keys - {o};
      }
      TotalWithout(live - {p}, o);
      TotalWithout(live - {o}, p);
      assert live - {p} - {o} == live - {o} - {p};
    }
  }

  lemma TotalWith(live: map<int, int>, o: int, size: int)
    requires o !in live
    ensures Total(live[o := size]) == Total(live) + size
  {
    TotalWithout(live[o := size], o);
    assert live[o := size] - {o} == live;
  }

  // ----- allocation -----

  lemma AlignUp(size: int)
    ensures Align(size) % 8 == 0 && size <= Align(size) < size + 8
  {}

  lemma BumpSound(a: State, primary: seq<bool>, size: int)
    requires Sound(a, primary) && size > 0 && size % 8 == 0 && a.offset + size <= a.capacity
    ensures Sound(State(a.capacity, a.offset + size, a.account + size, a.chunks + [Chunk(a.offset, size, true)]),
                  primary + [true])
  {}

  lemma BumpCovers(a: State, primary: seq<bool>, live: map<int, int>, size: int)
    requires Sound(a, primary) && Covers(a.chunks, primary, live)
    ensures a.offset !in live
    ensures Covers(a.chunks + [Chunk(a.offset, size, true)], primary + [true], live[a.offset := size])
  {
    var chunks', primary' := a.chunks + [Chunk(a.offset, size, true)], primary + [true];
    assert Backs(chunks', primary', |a.chunks|, a.offset);
    forall i, o | Backs(a.chunks, primary, i, o) ensures Backs(chunks', primary', i, o) && o < a.offset {}
    forall i, o | Backs(chunks', primary', i, o) ensures i == |a.chunks| || Backs(a.chunks, primary, i, o) {}
  }

  lemma ReuseSound(a: State, primary: seq<bool>, k: nat, size: int)
    requires Sound(a, primary) && k < |a.chunks| && !a.chunks[k].inUse && 0 < size <= a.chunks[k].size && size % 8 == 0
    ensures var c := Chunk(a.chunks[k].offset, size, true);
            Sound(a.(account := a.account + size, chunks := a.chunks[k := c] + [c]), primary + [false])
  {}

  lemma ReuseCovers(a: State, primary: seq<bool>, live: map<int, int>, k: nat, size: int)
    requires Sound(a, primary) && Covers(a.chunks, primary, live) && k < |a.chunks| && !a.chunks[k].inUse
    ensures a.chunks[k].offset !in live
    ensures var c := Chunk(a.chunks[k].offset, size, true);
            Covers(a.chunks[k := c] + [c], primary + [false], live[c.offset := size])
  {
    var c := Chunk(a.chunks[k].offset, size, true);
    var chunks', primary' := a.chunks[k := c] + [c], primary + [false];
    assert Backs(chunks', primary', k, c.offset);
    forall i, o | Backs(a.chunks, primary, i, o) ensures Backs(chunks', primary', i, o) && o != c.offset && i != k {}
    forall i, o | Backs(chunks', primary', i, o) ensures i == k || Backs(a.chunks, primary, i, o) {}
  }

  lemma BumpKeeps(a: State, primary: seq<bool>, live: map<int, int>, size: int)
    requires Inv(a, primary, live) && size > 0 && size % 8 == 0 && a.offset + size <= a.capacity
    ensures a.offset !in live
    ensures Inv(State(a.capacity, a.offset + size, a.account + size, a.chunks + [Chunk(a.offset, size, true)]),
                primary + [true], live[a.offset := size])
  {
    BumpSound(a, primary, size);
    BumpCovers(a, primary, live, size);
    TotalWith(live, a.offset, size);
  }

  lemma ReuseKeeps(a: State, primary: seq<bool>, live: map<int, int>, k: nat, size: int)
    requires Inv(a, primary, live) && k < |a.chunks| && !a.chunks[k].inUse && 0 < size <= a.chunks[k].size
             && size % 8 == 0
    ensures a.chunks[k].offset !in live
    ensures var c := Chunk(a.chunks[k].offset, size, true);
            Inv(a.(account := a.account + size, chunks := a.chunks[k := c] + [c]), primary + [false],
                live[c.offset := size])
  {
    ReuseSound(a, primary, k, size);
    ReuseCovers(a, primary, live, k, size);
    TotalWith(live, a.chunks[k].offset, size);
  }

  lemma AllocateBump(a: State, size: int)
    requires a.offset + Align(size) <= a.capacity
    ensures Allocate(a, size) ==
            (State(a.capacity, a.offset + Align(size), a.account + Align(size),
                   a.chunks + [Chunk(a.offset, Align(size), true)]), Some(a.offset))
  {}

  lemma AllocateReuse(a: State, size: int, k: nat)
    requires a.offset + Align(size) > a.capacity && k == FirstFit(a.chunks, Align(size), 0) < |a.chunks|
    ensures var c := Chunk(a.chunks[k].offset, Align(size), true);
            Allocate(a, size) ==
                (a.(account := a.account + Align(size), chunks := a.chunks[k := c] + [c]), Some(c.offset))
  {}

  lemma AllocateRefused(a: State, size: int)
    requires a.offset + Align(size) > a.capacity && FirstFit(a.chunks, Align(size), 0) == |a.chunks|
    ensures Allocate(a, size) == (a, None)
  {}

  /** What an allocation must leave. */
  ghost predicate Allocated(a: State, primary: seq<bool>, live: map<int, int>, size: int,
                            b: State, place: Option<int>, primary': seq<bool>) {
    if place.Some? then place.value !in live && Inv(b, primary', live[place.value := size])
    else b == a && primary' == primary
  }

  lemma BumpAllocates(a: State, primary: seq<bool>, live: map<int, int>, size: int)
    requires Inv(a, primary, live) && Align(size) > 0 && Align(size) % 8 == 0 && a.offset + Align(size) <= a.capacity
    ensures Allocated(a, primary, live, Align(size), Allocate(a, size).0, Allocate(a, size).1, primary + [true])
  {
    AllocateBump(a, size);
    BumpKeeps(a, primary, live, Align(size));
  }

  lemma ReuseAllocates(a: State, primary: seq<bool>, live: map<int, int>, size: int)
    requires Inv(a, primary, live) && Align(size) > 0 && Align(size) % 8 == 0 && a.offset + Align(size) > a.capacity
    requires FirstFit(a.chunks, Align(size), 0) < |a.chunks|
    ensures Allocated(a, primary, live, Align(size), Allocate(a, size).0, Allocate(a, size).1, primary + [false])
  {
    var k := FirstFit(a.chunks, Align(size), 0);
    AllocateReuse(a, size, k);
    ReuseKeeps(a, primary, live, k, Align(size));
  }

  lemma AllocateKeeps(a: State, primary: seq<bool>, live: map<int, int>, size: int) returns (primary': seq<bool>)
    requires Inv(a, primary, live) && size > 0
    ensures Allocated(a, primary, live, Align(size), Allocate(a, size).0, Allocate(a, size).1, primary')
  {
    AlignUp(size);
    if a.offset + Align(size) <= a.capacity {
      primary' := primary + [true];
      BumpAllocates(a, primary, live, size);
    } else if FirstFit(a.chunks, Align(size), 0) < |a.chunks| {
      primary' := primary + [false];
      ReuseAllocates(a, primary, live, size);
    } else {
      primary' := primary;
      AllocateRefused(a, size);
    }
  }

  // ----- release and coalescing -----

  /** The first record in use at a live offset is the primary one. */
  lemma FirstUsedIsPrimary(a: State, primary: seq<bool>, live: map<int, int>, o: int)
    requires Sound(a, primary) && Covers(a.chunks, primary, live) && o in live
    ensures Backs(a.chunks, primary, FirstUsed(a.chunks, o, 0), o)
  {
    var i :| Backs(a.chunks, primary, i, o);
  }

  lemma ReleaseSound(a: State, primary: seq<bool>, k: nat)
    requires Sound(a, primary) && k < |a.chunks| && primary[k]
    ensures Sound(a.(chunks := a.chunks[k := a.chunks[k].(inUse := false)]), primary)
  {}

  lemma ReleaseCovers(a: State, primary: seq<bool>, live: map<int, int>, k: nat)
    requires Sound(a, primary) && Covers(a.chunks, primary, live) && k < |a.chunks| && primary[k] && a.chunks[k].inUse
    ensures Covers(a.chunks[k := a.chunks[k].(inUse := false)], primary, live - {a.chunks[k].offset})
  {
    var o, chunks' := a.chunks[k].offset, a.chunks[k := a.chunks[k].(inUse := false)];
    forall i, p | Backs(a.chunks, primary, i, p) && p != o ensures Backs(chunks', primary, i, p) {}
    forall i, p | Backs(chunks', primary, i, p) ensures Backs(a.chunks, primary, i, p) && p != o {}
  }

  lemma ReleaseKeeps(a: State, primary: seq<bool>, live: map<int, int>, o: int)
    requires Inv(a, primary, live) && o in live
    ensures Inv(Release(a, o), primary, live - {o})
  {
    FirstUsedIsPrimary(a, primary, live, o);
    TotalWithout(live, o);
    ReleaseSound(a, primary, FirstUsed(a.chunks, o, 0));
    ReleaseCovers(a, primary, live, FirstUsed(a.chunks, o, 0));
  }

  function MergedMarks(primary: seq<bool>, i: nat): seq<bool>
    requires i + 1 < |primary|
  {
    primary[..i] + [true] + primary[i + 2..]
  }

  /** Where position j of the shortened list was before. */
  function Origin(i: nat, j: int): int {
    if j <= i then j else j + 1
  }

  lemma MergeMoves(chunks: seq<Chunk>, primary: seq<bool>, i: nat)
    requires |primary| == |chunks| && i + 1 < |chunks|
    ensures var b, marks := MergeAt(chunks, i), MergedMarks(primary, i);
            && |b| == |marks| == |chunks| - 1
            && b[i] == Chunk(chunks[i].offset, chunks[i].size + chunks[i + 1].size, false) && marks[i]
            && forall j :: 0 <= j < |b| && j != i ==> b[j] == chunks[Origin(i, j)] && marks[j] == primary[Origin(i, j)]
  {}

  lemma MergeApart(chunks: seq<Chunk>, primary: seq<bool>, i: nat, b: seq<Chunk>, marks: seq<bool>)
    requires |primary| == |chunks| && i + 1 < |chunks| && Apart(chunks, primary) && primary[i] && primary[i + 1]
    requires chunks[i].offset + chunks[i].size == chunks[i + 1].offset
    requires |b| == |marks| == |chunks| - 1 && marks[i] && b[i].offset == chunks[i].offset
    requires b[i].size == chunks[i].size + chunks[i + 1].size
    requires forall j :: 0 <= j < |b| && j != i ==> b[j] == chunks[Origin(i, j)] && marks[j] == primary[Origin(i, j)]
    ensures Apart(b, marks)
  {
    forall j, k | 0 <= j < k < |marks| && marks[j] && marks[k] ensures b[j].offset + b[j].size <= b[k].offset {
      if j == i {
        assert primary[k + 1] && chunks[i + 1].offset + chunks[i + 1].size <= chunks[k + 1].offset;
      } else {
        assert Origin(i, j) < Origin(i, k);
      }
    }
  }

  lemma MergeInert(a: State, primary: seq<bool>, i: nat, b: State, marks: seq<bool>)
    requires |primary| == |a.chunks| && i + 1 < |a.chunks| && Fits(a, primary) && Inert(a, primary)
    requires primary[i] && primary[i + 1] && a.chunks[i].offset + a.chunks[i].size == a.chunks[i + 1].offset
    requires b.offset == a.offset && |b.chunks| == |marks| == |a.chunks| - 1 && marks[i]
    requires b.chunks[i].offset == a.chunks[i].offset && b.chunks[i].size == a.chunks[i].size + a.chunks[i + 1].size
    requires forall j :: 0 <= j < |marks| && j != i ==>
             b.chunks[j] == a.chunks[Origin(i, j)] && marks[j] == primary[Origin(i, j)]
    ensures Fits(b, marks) && Inert(b, marks)
  {
    forall j, k | 0 <= j < |marks| && 0 <= k < |marks| && marks[j] && !marks[k]
        && b.chunks[k].offset == b.chunks[j].offset
      ensures j < k
    {
      assert !primary[Origin(i, k)] && primary[Origin(i, j)] && Origin(i, j) < Origin(i, k);
    }
  }

  lemma MergeSound(a: State, primary: seq<bool>, i: nat)
    requires Sound(a, primary) && i + 1 < |a.chunks| && Mergeable(a.chunks[i], a.chunks[i + 1])
    ensures Sound(a.(chunks := MergeAt(a.chunks, i)), MergedMarks(primary, i))
  {
    var b, marks := a.(chunks := MergeAt(a.chunks, i)), MergedMarks(primary, i);
    MergeMoves(a.chunks, primary, i);
    MergeApart(a.chunks, primary, i, b.chunks, marks);
    MergeInert(a, primary, i, b, marks);
  }

  /** The list b is what is left of the chunks when i and i + 1, both free, have become one. */
  ghost predicate Merged(chunks: seq<Chunk>, primary: seq<bool>, i: nat, b: seq<Chunk>, marks: seq<bool>) {
    && |primary| == |chunks| == |b| + 1 && |marks| == |b| && i < |b|
    && !b[i].inUse && !chunks[i].inUse && !chunks[i + 1].inUse
    && forall j :: 0 <= j < |b| && j != i ==> b[j] == chunks[Origin(i, j)] && marks[j] == primary[Origin(i, j)]
  }

  lemma MergeBackedBefore(chunks: seq<Chunk>, primary: seq<bool>, i: nat, b: seq<Chunk>, marks: seq<bool>,
                          j: int, o: int)
    requires Merged(chunks, primary, i, b, marks) && Backs(b, marks, j, o)
    ensures Backs(chunks, primary, Origin(i, j), o) && b[j] == chunks[Origin(i, j)]
  {}

  lemma MergeBackedAfter(chunks: seq<Chunk>, primary: seq<bool>, i: nat, b: seq<Chunk>, marks: seq<bool>,
                         j: int, o: int)
    requires Merged(chunks, primary, i, b, marks) && Backs(chunks, primary, j, o)
    ensures Backs(b, marks, if j <= i then j else j - 1, o)
  {
    var k := if j <= i then j else j - 1;
    assert j != i && j != i + 1 && k != i && Origin(i, k) == j;
  }

  lemma MergeCovers(a: State, primary: seq<bool>, live: map<int, int>, i: nat)
    requires |primary| == |a.chunks| && Covers(a.chunks, primary, live)
    requires i + 1 < |a.chunks| && Mergeable(a.chunks[i], a.chunks[i + 1])
    ensures Covers(MergeAt(a.chunks, i), MergedMarks(primary, i), live)
  {
    var b, marks := MergeAt(a.chunks, i), MergedMarks(primary, i);
    MergeMoves(a.chunks, primary, i);
    forall j, o | Backs(b, marks, j, o) ensures o in live && live[o] == b[j].size {
      MergeBackedBefore(a.chunks, primary, i, b, marks, j, o);
    }
    forall o | o in live ensures exists j :: Backs(b, marks, j, o) {
      var j :| Backs(a.chunks, primary, j, o);
      MergeBackedAfter(a.chunks, primary, i, b, marks, j, o);
    }
  }

  lemma {:induction false} CoalesceKeeps(a: State, primary: seq<bool>, live: map<int, int>, i: nat)
    returns (primary': seq<bool>)
    requires Inv(a, primary, live)
    ensures Inv(a.(chunks := Coalesce(a.chunks, i)), primary', live)
    decreases |a.chunks| - i
  {
    if i + 1 >= |a.chunks| {
      primary' := primary;
    } else if Mergeable(a.chunks[i], a.chunks[i + 1]) {
      MergeSound(a, primary, i);
      MergeCovers(a, primary, live, i);
      primary' := CoalesceKeeps(a.(chunks := MergeAt(a.chunks, i)), MergedMarks(primary, i), live, i);
    } else {
      primary' := CoalesceKeeps(a, primary, live, i + 1);
    }
  }

  /** None of the first records can be merged with its successor. */
  ghost predicate Settled(chunks: seq<Chunk>, upTo: nat) {
    forall j, k :: 0 <= j < upTo && k == j + 1 < |chunks| ==> !Mergeable(chunks[j], chunks[k])
  }

  /** Coalescing leaves no two neighbouring records that could still be merged. */
  lemma {:induction false} CoalesceIsComplete(chunks: seq<Chunk>, i: nat)
    requires Settled(chunks, i)
    ensures Settled(Coalesce(chunks, i), |Coalesce(chunks, i)|)
    decreases |chunks| - i
  {
    if i + 1 < |chunks| {
      if Mergeable(chunks[i], chunks[i + 1]) {
        CoalesceIsComplete(MergeAt(chunks, i), i);
      } else {
        CoalesceIsComplete(chunks, i + 1);
      }
    }
  }

  lemma CallKeeps(a: State, primary: seq<bool>, live: map<int, int>, call: Call) returns (primary': seq<bool>)
    requires Inv(a, primary, live) && Proper(live, call)
    ensures var (b, live') := After(a, live, call); Inv(b, primary', live')
  {
    match call {
      case Alloc(size) => primary' := AllocateKeeps(a, primary, live, size);
      case Free(offset) =>
        ReleaseKeeps(a, primary, live, offset);
        primary' := CoalesceKeeps(Release(a, offset), primary, live - {offset}, 0);
    }
  }

  // ----- whole histories -----

  lemma RegionsApart(chunks: seq<Chunk>, primary: seq<bool>, live: map<int, int>, o: int, p: int)
    requires |primary| == |chunks| && Apart(chunks, primary) && Covers(chunks, primary, live)
    requires o in live && p in live && o != p
    ensures o + live[o] <= p || p + live[p] <= o
  {
    var i :| Backs(chunks, primary, i, o);
    var j :| Backs(chunks, primary, j, p);
  }

  lemma RegionFits(a: State, primary: seq<bool>, live: map<int, int>, o: int)
    requires |primary| == |a.chunks| && Fits(a, primary) && Covers(a.chunks, primary, live) && o in live
    ensures 0 <= o && o % 8 == 0 && live[o] > 0 && live[o] % 8 == 0 && o + live[o] <= a.offset
  {
    var i :| Backs(a.chunks, primary, i, o);
  }

  ghost predicate NoneEmpty(live: map<int, int>) {
    forall o :: o in live ==> live[o] > 0
  }

  lemma InvIsSafe(a: State, primary: seq<bool>, live: map<int, int>)
    requires Inv(a, primary, live)
    ensures Safe(a, live) && NoneEmpty(live)
  {
    forall o | o in live
      ensures 0 <= o && o % 8 == 0 && live[o] > 0 && live[o] % 8 == 0 && o + live[o] <= a.offset
    {
      RegionFits(a, primary, live, o);
    }
    forall o, p | o in live && p in live && o != p ensures o + live[o] <= p || p + live[p] <= o {
      RegionsApart(a.chunks, primary, live, o, p);
    }
  }

  /** Each call is proper for what the callers hold when they make it. */
  ghost predicate ProperHistory(a: State, live: map<int, int>, calls: seq<Call>)
    decreases |calls|
  {
    calls == [] || (
      Proper(live, calls[0])
      && var (b, live') := After(a, live, calls[0]); ProperHistory(b, live', calls[1..]))
  }

  ghost function AfterAll(a: State, live: map<int, int>, calls: seq<Call>): (State, map<int, int>)
    decreases |calls|
  {
    if calls == [] then (a, live) else
    var (b, live') := After(a, live, calls[0]); AfterAll(b, live', calls[1..])
  }

  lemma {:induction false} HistoryKeeps(a: State, primary: seq<bool>, live: map<int, int>, calls: seq<Call>)
    returns (primary': seq<bool>)
    requires Inv(a, primary, live) && ProperHistory(a, live, calls)
    ensures var (b, live') := AfterAll(a, live, calls); Inv(b, primary', live')
    decreases |calls|
  {
    primary' := primary;
    if calls != [] {
      primary' := CallKeeps(a, primary, live, calls[0]);
      var (b, live') := After(a, live, calls[0]);
      primary' := HistoryKeeps(b, primary', live', calls[1..]);
    }
  }

  /** Every call leaves nothing to merge. */
  lemma CallSettles(a: State, live: map<int, int>, call: Call)
    requires Settled(a.chunks, |a.chunks|)
    ensures var b := After(a, live, call).0; Settled(b.chunks, |b.chunks|)
  {
    if call.Free? { CoalesceIsComplete(Release(a, call.offset).chunks, 0); }
  }

  lemma {:induction false} HistorySettles(a: State, live: map<int, int>, calls: seq<Call>)
    requires Settled(a.chunks, |a.chunks|)
    ensures var b := AfterAll(a, live, calls).0; Settled(b.chunks, |b.chunks|)
    decreases |calls|
  {
    if calls != [] {
      CallSettles(a, live, calls[0]);
      var (b, live') := After(a, live, calls[0]);
      HistorySettles(b, live', calls[1..]);
    }
  }

  /** Arena safety: from an empty arena, any proper history leaves the callers' regions non-empty, in bounds, aligned
      and disjoint, and the account equal to their total, whatever records pile up. */
  lemma ArenaSafety(capacity: nat, calls: seq<Call>)
    requires ProperHistory(State(capacity, 0, 0, []), map[], calls)
    ensures var (b, live) := AfterAll(State(capacity, 0, 0, []), map[], calls); Safe(b, live) && NoneEmpty(live)
  {
    var primary := HistoryKeeps(State(capacity, 0, 0, []), [], map[], calls);
    var (b, live) := AfterAll(State(capacity, 0, 0, []), map[], calls);
    InvIsSafe(b, primary, live);
  }

  // ----- calls the arena does not stand -----

  /** When nothing is returned, neither the unused end nor any freed chunk has room for the request. */
  lemma RefusalMeansFull(a: State, size: int)
    ensures Allocate(a, size).1.None? <==>
            a.offset + Align(size) > a.capacity
            && forall k :: 0 <= k < |a.chunks| ==> a.chunks[k].inUse || a.chunks[k].size < Align(size)
  {}

  /** The arena and the callers' regions some proper history leads to. */
  ghost predicate Reached(a: State, live: map<int, int>) {
    exists capacity: nat, calls: seq<Call> :: LedTo(capacity, calls, a, live)
  }

  ghost predicate LedTo(capacity: nat, calls: seq<Call>, a: State, live: map<int, int>) {
    && ProperHistory(State(capacity, 0, 0, []), map[], calls)
    && AfterAll(State(capacity, 0, 0, []), map[], calls) == (a, live)
  }

  lemma ReachedIsInv(a: State, live: map<int, int>) returns (primary: seq<bool>)
    requires Reached(a, live)
    ensures Inv(a, primary, live) && Settled(a.chunks, |a.chunks|)
  {
    var capacity: nat, calls: seq<Call> :| LedTo(capacity, calls, a, live);
    primary := HistoryKeeps(State(capacity, 0, 0, []), [], map[], calls);
    HistorySettles(State(capacity, 0, 0, []), map[], calls);
  }

  /** Some record in use has the offset. */
  predicate Recorded(a: State, o: int) {
    exists k :: 0 <= k < |a.chunks| && a.chunks[k].inUse && a.chunks[k].offset == o
  }

  lemma {:induction false} CoalesceSettled(chunks: seq<Chunk>, i: nat)
    requires Settled(chunks, |chunks|)
    ensures Coalesce(chunks, i) == chunks
    decreases |chunks| - i
  {
    if i + 1 < |chunks| { CoalesceSettled(chunks, i + 1); }
  }

  lemma CoalesceKeepsAccount(a: State, o: int)
    ensures Deallocate(a, o).account == Release(a, o).account
  {}

  /** Giving back an offset nobody holds is harmless, and changes nothing, if and only if no record in use has it. */
  lemma StrayFreeExactly(a: State, live: map<int, int>, o: int)
    requires Reached(a, live) && o !in live
    ensures Safe(Deallocate(a, o), live) <==> !Recorded(a, o)
    ensures Deallocate(a, o) == a <==> !Recorded(a, o)
  {
    var primary := ReachedIsInv(a, live);
    InvIsSafe(a, primary, live);
    var k := FirstUsed(a.chunks, o, 0);
    if Recorded(a, o) {
      assert Backs(a.chunks, primary, k, o) <==> primary[k];
      CoalesceKeepsAccount(a, o);
    } else {
      CoalesceSettled(a.chunks, 0);
    }
  }

  /** Some later request is given an offset that is still held. */
  ghost predicate Clashes(a: State, live: map<int, int>) {
    exists size :: size > 0 && GivenHeld(a, live, size)
  }

  ghost predicate GivenHeld(a: State, live: map<int, int>, size: int) {
    var place := Allocate(a, size).1; place.Some? && place.value in live
  }

  lemma ProperNeverClashes(a: State, primary: seq<bool>, live: map<int, int>)
    requires Inv(a, primary, live)
    ensures !Clashes(a, live)
  {
    forall size | size > 0 ensures !GivenHeld(a, live, size) {
      var primary' := AllocateKeeps(a, primary, live, size);
    }
  }

  /** An empty request takes no room at the end of the used part. */
  lemma EmptyAllocates(a: State, empty: int)
    requires -8 < empty <= 0 && 0 <= a.offset <= a.capacity
    ensures Align(empty) == 0
            && Allocate(a, empty) == (a.(chunks := a.chunks + [Chunk(a.offset, 0, true)]), Some(a.offset))
  {
    AllocateBump(a, empty);
  }

  /** A freed chunk lies before the used part's end, and nobody holds its offset. */
  lemma FreeIsUnheld(a: State, primary: seq<bool>, live: map<int, int>, k: nat)
    requires Inv(a, primary, live) && k < |a.chunks| && !a.chunks[k].inUse
    ensures a.chunks[k].offset !in live && a.chunks[k].offset < a.offset
  {
    ReuseCovers(a, primary, live, k, a.chunks[k].size);
  }

  /** Behind an empty request only a request that takes room at the end is given the same offset. */
  lemma ClashAfterEmpty(a: State, primary: seq<bool>, live: map<int, int>, size: int)
    requires Inv(a, primary, live) && size > 0
    ensures var b := a.(chunks := a.chunks + [Chunk(a.offset, 0, true)]);
            GivenHeld(b, live[a.offset := 0], size) <==> a.offset + Align(size) <= a.capacity
  {
    var b := a.(chunks := a.chunks + [Chunk(a.offset, 0, true)]);
    AlignUp(size);
    if a.offset + Align(size) <= a.capacity {
      AllocateBump(b, size);
    } else {
      var k := FirstFit(b.chunks, Align(size), 0);
      if k == |b.chunks| {
        AllocateRefused(b, size);
      } else {
        AllocateReuse(b, size, k);
        FreeIsUnheld(a, primary, live, k);
      }
    }
  }

  /** After any proper history, an accepted request of any size for which the program returns leaves the arena safe; a
      later one is then given an offset that is still held if and only if it asked for nothing and there is room left.
      */
  lemma RequestClashesExactly(a: State, live: map<int, int>, size: int)
    requires Reached(a, live) && -8 < size && Allocate(a, size).1.Some?
    ensures var (b, live') := After(a, live, Alloc(size));
            Safe(b, live') && (Clashes(b, live') <==> size <= 0 && a.offset + 8 <= a.capacity)
  {
    var primary := ReachedIsInv(a, live);
    var (b, live') := After(a, live, Alloc(size));
    if size > 0 {
      primary := AllocateKeeps(a, primary, live, size);
      InvIsSafe(b, primary, live');
      ProperNeverClashes(b, primary, live');
    } else {
      EmptyAllocates(a, size);
      EmptyIsSafe(a, primary, live);
      forall n | n > 0 ensures GivenHeld(b, live', n) <==> a.offset + Align(n) <= a.capacity {
        ClashAfterEmpty(a, primary, live, n);
        AlignUp(n);
      }
      if a.offset + 8 <= a.capacity { assert Align(8) == 8 && GivenHeld(b, live', 8); }
    }
  }

  /** An empty region behind all others leaves them in bounds and apart. */
  lemma EmptyFits(capacity: int, live: map<int, int>, end: int)
    requires 0 <= end <= capacity && end % 8 == 0 && end !in live
    requires forall o :: o in live ==> 0 <= o && o % 8 == 0 && live[o] >= 0 && live[o] % 8 == 0 && o + live[o] <= end
    requires forall o, p :: o in live && p in live && o != p ==> o + live[o] <= p || p + live[p] <= o
    ensures var more := live[end := 0];
            && (forall o :: o in more ==>
                              0 <= o && o % 8 == 0 && more[o] >= 0 && more[o] % 8 == 0 && o + more[o] <= capacity)
            && (forall o, p :: o in more && p in more && o != p ==> o + more[o] <= p || p + more[p] <= o)
  {}

  lemma EmptyIsSafe(a: State, primary: seq<bool>, live: map<int, int>)
    requires Inv(a, primary, live)
    ensures Safe(a.(chunks := a.chunks + [Chunk(a.offset, 0, true)]), live[a.offset := 0])
  {
    assert a.offset !in live by { BumpCovers(a, primary, live, 0); }
    TotalWith(live, a.offset, 0);
    forall o | o in live
      ensures 0 <= o && o % 8 == 0 && live[o] >= 0 && live[o] % 8 == 0 && o + live[o] <= a.offset
    {
      RegionFits(a, primary, live, o);
    }
    forall o, p | o in live && p in live && o != p ensures o + live[o] <= p || p + live[p] <= o {
      RegionsApart(a.chunks, primary, live, o, p);
    }
    EmptyFits(a.capacity, live, a.offset);
  }

  lemma NoneUsedAtEnd(a: State, primary: seq<bool>)
    requires Sound(a, primary)
    ensures !Recorded(a, a.offset)
  {}

  lemma {:induction false} FirstUsedBehind(chunks: seq<Chunk>, more: seq<Chunk>, o: int, i: nat)
    requires i <= |chunks| && forall k :: 0 <= k < |chunks| ==> !(chunks[k].inUse && chunks[k].offset == o)
    requires more != [] && more[0].inUse && more[0].offset == o
    ensures FirstUsed(chunks + more, o, i) == |chunks|
    decreases |chunks| - i
  {
    if i < |chunks| { FirstUsedBehind(chunks, more, o, i + 1); }
  }

  /** An empty request shares its offset with the next one, and giving that offset back frees the empty one: the bytes
      of the other stay on the account with nobody to hold them. */
  lemma EmptyRequestLeaks(a: State, live: map<int, int>, empty: int, size: int)
    requires Reached(a, live) && -8 < empty <= 0 < size && a.offset + Align(size) <= a.capacity
    ensures var (b, first) := Allocate(a, empty);
            var (c, second) := Allocate(b, size);
            && first == second == Some(a.offset) && a.offset !in live
            && Deallocate(c, a.offset).account == Total(live) + Align(size)
  {
    var primary := ReachedIsInv(a, live);
    NoneUsedAtEnd(a, primary);
    BumpCovers(a, primary, live, 0);
    AlignUp(size);
    AllocateBump(a, empty);
    var b := Allocate(a, empty).0;
    AllocateBump(b, size);
    var c := Allocate(b, size).0;
    var more := [Chunk(a.offset, 0, true), Chunk(a.offset, Align(size), true)];
    assert c.chunks == a.chunks + more;
    FirstUsedBehind(a.chunks, more, a.offset, 0);
    CoalesceKeepsAccount(c, a.offset);
  }

  /** Freeing twice a chunk that was reused hands the same bytes to two callers. */
  lemma DoubleFreeOverlaps()
    ensures var a0 := State(8, 0, 0, []);
            var a1 := Deallocate(Allocate(a0, 8).0, 0);
            var a2 := Deallocate(Deallocate(Allocate(a1, 8).0, 0), 0);
            var (a3, first) := Allocate(a2, 8);
            var (a4, second) := Allocate(a3, 8);
            first == second == Some(0)
  {
    var a0 := State(8, 0, 0, []);
    var c, f := Chunk(0, 8, true), Chunk(0, 8, false);
    assert Allocate(a0, 8).0 == State(8, 8, 8, [c]);
    assert Release(State(8, 8, 8, [c]), 0) == State(8, 8, 0, [f]);
    var a1 := Deallocate(Allocate(a0, 8).0, 0);
    assert a1 == State(8, 8, 0, [f]);
    assert [f][0 := c] + [c] == [c, c] && [c, c][0 := f] == [f, c] && [f, c][1 := f] == [f, f];
    assert [f, f][0 := c] + [c] == [c, f, c];
    assert Allocate(a1, 8) == (State(8, 8, 8, [c, c]), Some(0));
    assert FirstUsed([f, c], 0, 0) == FirstUsed([f, c], 0, 1) == 1;
    assert Deallocate(State(8, 8, 8, [c, c]), 0) == State(8, 8, 0, [f, c]) by {
      assert Coalesce([f, c], 0) == Coalesce([f, c], 1) == [f, c];
    }
    assert Deallocate(State(8, 8, 0, [f, c]), 0) == State(8, 8, -8, [f, f]) by {
      assert Coalesce([f, f], 0) == Coalesce([f, f], 1) == [f, f];
    }
    assert Allocate(State(8, 8, -8, [f, f]), 8) == (State(8, 8, 0, [c, f, c]), Some(0));
    assert FirstFit([c, f, c], 8, 0) == FirstFit([c, f, c], 8, 1) == 1;
  }
}
