/** The buffered reader of a scan: what a read is given depends only on positions and the size of the file. */
module BufferedReader {
  import opened Numbers

  const BUFFER: nat := 4096

  /** The most one read of the file gives. */
  const MAX_READ: nat := 0x4000_0000

  /** The next byte to give, and the end of what the buffer holds. */
  datatype Reader = Reader(pos: nat, end: nat)

  const START := Reader(0, 0)

  predicate Sane(size: nat, r: Reader) {
    r.pos <= r.end <= size
  }

  /** How many bytes a read gave, and the reader after it. */
  datatype Given = Given(n: nat, next: Reader)

  /** An empty buffer is filled by one read of the file. */
  function Refill(size: nat, r: Reader): Reader
    requires Sane(size, r)
  {
    if r.pos == r.end then Reader(r.pos, r.pos + Min(BUFFER, size - r.pos)) else r
  }

  /** A plain read gives what the buffer holds and no more; a large one with an empty buffer goes to the file. */
  function PlainRead(size: nat, r: Reader, want: nat): (g: Given)
    requires Sane(size, r)
    ensures Sane(size, g.next) && g.next.pos == r.pos + g.n && g.n <= want
    ensures g.n == 0 <==> want == 0 || r.pos == size
  {
    if want == 0 then Given(0, r)
    else if r.pos == r.end && want >= BUFFER then
      var n := Min(Min(want, MAX_READ), size - r.pos);
      Given(n, Reader(r.pos + n, r.pos + n))
    else
      var full := Refill(size, r);
      var n := Min(want, full.end - full.pos);
      Given(n, Reader(full.pos + n, full.end))
  }

  /** A full read repeats plain reads until it has all it wants or the file ends. */
  function FullRead(size: nat, r: Reader, want: nat): (g: Given)
    requires Sane(size, r)
    ensures Sane(size, g.next) && g.next.pos == r.pos + g.n && g.n == Min(want, size - r.pos)
    decreases want
  {
    var first := PlainRead(size, r, want);
    if first.n == 0 then first else
    var rest := FullRead(size, first.next, want - first.n);
    Given(first.n + rest.n, rest.next)
  }

  /** A full read of no more than a buffer needs at most one refill. */
  function ShortRead(size: nat, r: Reader, want: nat): (g: Given)
    requires Sane(size, r) && want <= BUFFER
    ensures Sane(size, g.next) && g.next.pos == r.pos + g.n
  {
    var n := Min(want, size - r.pos);
    Given(n, Reader(r.pos + n, if r.pos + n <= r.end then r.end else r.end + Min(BUFFER, size - r.end)))
  }

  /** With nothing buffered, one read of the file gives at most 2 to the 30 bytes. */
  lemma LongestRead(size: nat, pos: nat, want: nat)
    requires pos <= size && want >= 4096
    ensures PlainRead(size, Reader(pos, pos), want).n == Min(Min(want, 0x4000_0000), size - pos)
  {}

  lemma FullReadEnds(size: nat, r: Reader, want: nat)
    requires Sane(size, r) && (want == 0 || r.pos == size)
    ensures FullRead(size, r, want) == Given(0, r)
  {}

  /** A read that falls short and then starts on an empty buffer is complete, or at the end of the file. */
  lemma SecondReadIsLast(size: nat, r: Reader, want: nat)
    requires Sane(size, r) && r.pos == r.end && 0 < want < BUFFER
    ensures var n := Min(want, size - r.pos);
            FullRead(size, r, want) == Given(n, Reader(r.pos + n, r.end + Min(BUFFER, size - r.end)))
  {
    var second := PlainRead(size, r, want);
    if second.n == 0 {
      FullReadEnds(size, r, want);
    } else {
      FullReadEnds(size, second.next, want - second.n);
    }
  }

  lemma ShortReadIsFullRead(size: nat, r: Reader, want: nat)
    requires Sane(size, r) && want < BUFFER
    ensures ShortRead(size, r, want) == FullRead(size, r, want)
  {
    if want == 0 {
      FullReadEnds(size, r, want);
    } else if r.pos == r.end {
      SecondReadIsLast(size, r, want);
    } else {
      var first := PlainRead(size, r, want);
      if first.n == want {
        FullReadEnds(size, first.next, 0);
      } else {
        SecondReadIsLast(size, first.next, want - first.n);
      }
    }
  }

  /** The read of a number, which takes four bytes. */
  function WordRead(size: nat, r: Reader): (g: Given)
    requires Sane(size, r)
    ensures Sane(size, g.next) && g.next.pos == r.pos + g.n
  {
    ShortRead(size, r, 4)
  }

  /** How many bytes a long read gives at once: what is in the buffer, or else one read of the file. */
  function AtOnce(r: Reader): nat
    requires r.pos <= r.end
  {
    if r.pos < r.end then r.end - r.pos else MAX_READ
  }

  /** The bytes wanted begin in the buffer and go on beyond its end, or are more than one read of the file gives. */
  predicate FallsShort(r: Reader, want: nat)
    requires r.pos <= r.end
  {
    AtOnce(r) < want
  }

  lemma PlainReadShort(size: nat, r: Reader, want: nat)
    requires Sane(size, r) && r.pos + want <= size && FallsShort(r, want)
    ensures var k := AtOnce(r); PlainRead(size, r, want) == Given(k, Reader(r.pos + k, r.pos + k))
  {}

  /** A plain read of bytes that are there gives them all if and only if that is no more than it gives at once. */
  lemma PlainReadWhole(size: nat, r: Reader, want: nat)
    requires Sane(size, r) && r.pos + want <= size
    ensures PlainRead(size, r, want).n == want <==> !FallsShort(r, want)
  {
    if FallsShort(r, want) { PlainReadShort(size, r, want); }
  }

  // ----- where the buffer ends -----

  /** How far it is from a position to the next multiple of the buffer size. */
  function Room(p: nat): nat {
    if p % BUFFER == 0 then 0 else BUFFER - p % BUFFER
  }

  /** As long as no read went past the buffer, the buffer ends at a multiple of its size or with the file. */
  predicate Aligned(size: nat, r: Reader) {
    Sane(size, r) && r.end - r.pos == Min(Room(r.pos), size - r.pos)
  }

  lemma RoomWithin(p: nat, n: nat)
    requires n <= Room(p)
    ensures n == 0 || Room(p + n) == Room(p) - n
  {}

  lemma RoomBeyond(p: nat, n: nat)
    requires Room(p) < n <= Room(p) + BUFFER
    ensures Room(p + n) == Room(p) + BUFFER - n
  {
    assert (p + Room(p)) % BUFFER == 0;
  }

  lemma PlainReadAligned(size: nat, r: Reader, want: nat)
    requires Aligned(size, r) && want < BUFFER
    ensures Aligned(size, PlainRead(size, r, want).next)
  {
    var g := PlainRead(size, r, want);
    if g.n <= Room(r.pos) { RoomWithin(r.pos, g.n); } else { RoomBeyond(r.pos, g.n); }
  }

  lemma WordReadAligned(size: nat, r: Reader)
    requires Aligned(size, r)
    ensures Aligned(size, WordRead(size, r).next)
  {
    var g := WordRead(size, r);
    if g.n <= Room(r.pos) { RoomWithin(r.pos, g.n); } else { RoomBeyond(r.pos, g.n); }
  }

  /** A multiple of the buffer size lies strictly inside the bytes, which are fewer than a buffer. */
  predicate Crosses(p: nat, len: nat) {
    0 < Room(p) < len
  }

  lemma AlignedFallsShort(size: nat, r: Reader, want: nat)
    requires Aligned(size, r) && r.pos + want <= size && want < BUFFER
    ensures FallsShort(r, want) <==> Crosses(r.pos, want)
  {}
}
