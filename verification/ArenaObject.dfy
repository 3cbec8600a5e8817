/** The arena as the object its methods update, each method proved against the model. */
module ArenaObject {
  import opened Wrappers
  import opened Arena

  class MemoryArena {
    const capacity: int
    var offset: int
    var account: int
    var chunks: seq<Chunk>

    function Contents(): State
      reads this
    {
      State(capacity, offset, account, chunks)
    }

    constructor (capacity: int)
      ensures Contents() == State(capacity, 0, 0, [])
    {
      this.capacity := capacity;
      offset, account, chunks := 0, 0, [];
    }

    method FindFreeSpace(size: int) returns (place: Option<int>)
      modifies this
      ensures (Contents(), place) == Arena.FindFreeSpace(old(Contents()), size)
    {
      if offset + size <= capacity {
        place := Some(offset);
        offset := offset + size;
        return;
      }
      var i := 0;
      while i < |chunks|
        invariant 0 <= i <= |chunks| && Contents() == old(Contents())
        invariant FirstFit(chunks, size, 0) == FirstFit(chunks, size, i)
      {
        if !chunks[i].inUse && chunks[i].size >= size {
          chunks := chunks[i := Chunk(chunks[i].offset, size, true)];
          return Some(chunks[i].offset);
        }
        i := i + 1;
      }
      place := None;
    }

    method Allocate(size: int) returns (place: Option<int>)
      modifies this
      ensures (Contents(), place) == Arena.Allocate(old(Contents()), size)
    {
      var aligned := Align(size);
      place := FindFreeSpace(aligned);
      if place.None? { return; }
      chunks := chunks + [Chunk(place.value, aligned, true)];
      account := account + aligned;
    }

    method Deallocate(o: int)
      modifies this
      ensures Contents() == Arena.Deallocate(old(Contents()), o)
    {
      var i := 0;
      while i < |chunks|
        invariant 0 <= i <= |chunks| && Contents() == old(Contents())
        invariant FirstUsed(chunks, o, 0) == FirstUsed(chunks, o, i)
      {
        if chunks[i].offset == o && chunks[i].inUse {
          account := account - chunks[i].size;
          chunks := chunks[i := chunks[i].(inUse := false)];
          break;
        }
        i := i + 1;
      }
      CoalesceChunks();
    }

    /** After a merge the index steps back, so that the same position is looked at again. */
    method CoalesceChunks()
      modifies this`chunks
      ensures chunks == Coalesce(old(chunks), 0)
    {
      var i := 0;
      while i < |chunks| - 1
        invariant 0 <= i && Coalesce(chunks, i) == Coalesce(old(chunks), 0)
        decreases |chunks| - i
      {
        if Mergeable(chunks[i], chunks[i + 1]) {
          var both := Chunk(chunks[i].offset, chunks[i].size + chunks[i + 1].size, false);
          chunks := chunks[..i] + [both] + chunks[i + 2..];
          i := i - 1;
        }
        i := i + 1;
      }
    }
  }
}
