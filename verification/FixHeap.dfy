/**
 The chunked store for strings and tensors, src/storage/column_vector/fix_heap.cpp: equally large chunks, filled
 one after the other. A value is found again by the chunk and offset where it starts.
 */
module FixHeap {
  import opened Integers
  import opened Sequences
  import opened Wrappers
  import opened DataBlocks

  // ----- addresses -----

  /** The position of a byte of a chunk when all chunks are read one after the other. */
  ghost function Address(chunks: seq<seq<Byte>>, chunk: nat, offset: nat): nat
    requires chunk <= |chunks|
  {
    |Concat(chunks[..chunk])| + offset
  }

  /** `bytes` with `data` written over the part at `at`. */
  ghost function Put(bytes: seq<Byte>, at: nat, data: seq<Byte>): (r: seq<Byte>)
    requires at + |data| <= |bytes|
    ensures |r| == |bytes|
  {
    bytes[..at] + data + bytes[at + |data|..]
  }

  lemma PutNothing(bytes: seq<Byte>, at: nat)
    requires at <= |bytes|
    ensures Put(bytes, at, []) == bytes
  {
  }

  lemma PutBehind(bytes: seq<Byte>, at: nat, data: seq<Byte>, a: nat, b: nat)
    requires a <= b <= at && at + |data| <= |bytes|
    ensures Put(bytes, at, data)[a..b] == bytes[a..b]
  {
  }

  lemma PutTwice(bytes: seq<Byte>, at: nat, a: seq<Byte>, b: seq<Byte>)
    requires at + |a| + |b| <= |bytes|
    ensures Put(Put(bytes, at, a), at + |a|, b) == Put(bytes, at, a + b)
  {
    var first := Put(bytes, at, a);
    assert first[..at + |a|] == bytes[..at] + a;
    assert first[at + |a| + |b|..] == bytes[at + |a| + |b|..];
  }

  lemma PutMore(bytes: seq<Byte>, at: nat, all: seq<Byte>, from: nat, data: seq<Byte>, done: nat, size: nat)
    requires from + |data| <= |all| && data == all[from..from + |data|]
    requires done + size <= |data| && at + |data| <= |bytes|
    ensures Put(Put(bytes, at, data[..done]), at + done, all[from + done..from + done + size])
         == Put(bytes, at, data[..done + size])
  {
    SliceOfSlice(all, from, from + |data|, done, done + size);
    assert data[..done + size] == data[..done] + data[done..done + size];
    PutTwice(bytes, at, data[..done], data[done..done + size]);
  }

  lemma ChunkBytes(chunks: seq<seq<Byte>>, chunk: nat, offset: nat, n: nat)
    requires chunk < |chunks| && offset + n <= |chunks[chunk]|
    ensures var at := Address(chunks, chunk, offset);
      at + n <= |Concat(chunks)| && Concat(chunks)[at..at + n] == chunks[chunk][offset..offset + n]
  {
    ConcatAround(chunks, chunk);
    InMiddle(Concat(chunks[..chunk]), chunks[chunk], Concat(chunks[chunk + 1..]), offset, offset + n);
  }

  lemma NextChunk(chunks: seq<seq<Byte>>, chunk: nat)
    requires chunk < |chunks|
    ensures Address(chunks, chunk + 1, 0) == Address(chunks, chunk, |chunks[chunk]|)
  {
    assert chunks[..chunk + 1][..chunk] == chunks[..chunk];
  }

  lemma LastChunk(chunks: seq<seq<Byte>>)
    ensures Address(chunks, |chunks|, 0) == |Concat(chunks)|
  {
    assert chunks[..|chunks|] == chunks;
  }

  /** Writing inside one chunk. */
  lemma ChunkPut(chunks: seq<seq<Byte>>, chunk: nat, offset: nat, data: seq<Byte>)
    requires chunk < |chunks| && offset + |data| <= |chunks[chunk]|
    ensures var chunks' := chunks[chunk := Put(chunks[chunk], offset, data)];
      var at := Address(chunks, chunk, offset);
      at + |data| <= |Concat(chunks)| && Concat(chunks') == Put(Concat(chunks), at, data)
  {
    var chunks' := chunks[chunk := Put(chunks[chunk], offset, data)];
    assert chunks'[..chunk] == chunks[..chunk] && chunks'[chunk + 1..] == chunks[chunk + 1..];
    ConcatAround(chunks, chunk);
    ConcatAround(chunks', chunk);
    PutInside(Concat(chunks[..chunk]), chunks[chunk], Concat(chunks[chunk + 1..]), offset, data);
  }

  lemma PutInside(front: seq<Byte>, middle: seq<Byte>, back: seq<Byte>, offset: nat, data: seq<Byte>)
    requires offset + |data| <= |middle|
    ensures Put(front + (middle + back), |front| + offset, data) == front + (Put(middle, offset, data) + back)
  {
    var all := front + (middle + back);
    assert all[..|front| + offset] == front + middle[..offset];
    assert all[|front| + offset + |data|..] == middle[offset + |data|..] + back;
  }

  /** Addresses depend only on how long the chunks are. */
  lemma {:induction false} SameAddress(a: seq<seq<Byte>>, b: seq<seq<Byte>>, chunk: nat, offset: nat)
    requires chunk <= |a| && chunk <= |b| && forall i | 0 <= i < chunk :: |a[i]| == |b[i]|
    ensures Address(a, chunk, offset) == Address(b, chunk, offset)
  {
    if chunk > 0 {
      SameAddress(a, b, chunk - 1, offset);
      NextChunk(a, chunk - 1);
      NextChunk(b, chunk - 1);
    }
  }

  lemma Grown(a: seq<seq<Byte>>, b: seq<seq<Byte>>, chunk: nat, offset: nat)
    requires a <= b && chunk <= |a|
    ensures Address(a, chunk, offset) == Address(b, chunk, offset)
  {
    assert a[..chunk] == b[..chunk];
  }

  // ----- values in the heap -----

  /** A value and the place that was given out for it. */
  datatype Stored = Stored(chunk: nat, offset: nat, data: seq<Byte>)

  /** The value is found at its place, below the address `used`. */
  ghost predicate Readable(chunks: seq<seq<Byte>>, used: nat, s: Stored) {
    && s.chunk < |chunks|
    && var at := Address(chunks, s.chunk, s.offset);
    && at + |s.data| <= used <= |Concat(chunks)|
    && Concat(chunks)[at..at + |s.data|] == s.data
  }

  lemma PrefixSlice(a: seq<Byte>, b: seq<Byte>, from: nat, to: nat)
    requires from <= to <= |a|
    ensures (a + b)[from..to] == a[from..to]
  {
  }

  /** More chunks, and data written behind `used`, do not disturb a value. */
  lemma StillReadable(before: seq<seq<Byte>>, grown: seq<seq<Byte>>, after: seq<seq<Byte>>, used: nat, at: nat,
                      data: seq<Byte>, used': nat, s: Stored)
    requires Readable(before, used, s) && before <= grown && |after| == |grown|
    requires forall i | 0 <= i < |grown| :: |after[i]| == |grown[i]|
    requires used <= at && at + |data| == used' <= |Concat(grown)|
    requires Concat(after) == Put(Concat(grown), at, data)
    ensures Readable(after, used', s)
  {
    Grown(before, grown, s.chunk, s.offset);
    SameAddress(grown, after, s.chunk, s.offset);
    assert grown == before + grown[|before|..];
    ConcatAppend(before, grown[|before|..]);
    var p := Address(before, s.chunk, s.offset);
    PutBehind(Concat(grown), at, data, p, p + |s.data|);
    PrefixSlice(Concat(before), Concat(grown[|before|..]), p, p + |s.data|);
  }

  /** What is stored from a place on, if the heap reaches that far. */
  ghost function BytesAt(chunks: seq<seq<Byte>>, chunk: nat, offset: nat, n: nat): Option<seq<Byte>> {
    if n == 0 then Some([])
    else if chunk < |chunks| && Address(chunks, chunk, offset) + n <= |Concat(chunks)| then
      var at := Address(chunks, chunk, offset);
      Some(Concat(chunks)[at..at + n])
    else None
  }

  /** The first bytes of what is read at a place. */
  lemma FirstBytes(chunks: seq<seq<Byte>>, chunk: nat, offset: nat, data: seq<Byte>, n: nat)
    requires BytesAt(chunks, chunk, offset, |data|) == Some(data) && n <= |data|
    ensures BytesAt(chunks, chunk, offset, n) == Some(data[..n])
  {
    if n > 0 {
      var at := Address(chunks, chunk, offset);
      SliceOfSlice(Concat(chunks), at, at + |data|, 0, n);
    }
  }

  /** A readable value is what is read at its place. */
  lemma ReadBack(chunks: seq<seq<Byte>>, used: nat, s: Stored)
    requires Readable(chunks, used, s)
    ensures BytesAt(chunks, s.chunk, s.offset, |s.data|) == Some(s.data)
  {
  }

  ghost predicate AllReadable(chunks: seq<seq<Byte>>, used: nat, stored: seq<Stored>) {
    forall k | 0 <= k < |stored| :: Readable(chunks, used, stored[k])
  }

  /** Writing a value behind all the others makes it readable too. */
  lemma OneMore(before: seq<seq<Byte>>, grown: seq<seq<Byte>>, after: seq<seq<Byte>>, used: nat, used': nat,
                stored: seq<Stored>, s: Stored)
    requires AllReadable(before, used, stored) && before <= grown && |after| == |grown| && s.chunk < |grown|
    requires forall i | 0 <= i < |grown| :: |after[i]| == |grown[i]|
    requires used <= Address(grown, s.chunk, s.offset)
    requires Address(grown, s.chunk, s.offset) + |s.data| == used' <= |Concat(grown)|
    requires Concat(after) == Put(Concat(grown), Address(grown, s.chunk, s.offset), s.data)
    ensures AllReadable(after, used', stored + [s])
  {
    SameAddress(grown, after, s.chunk, s.offset);
    var all := stored + [s];
    forall k | 0 <= k < |all|
      ensures Readable(after, used', all[k])
    {
      if k < |stored| {
        StillReadable(before, grown, after, used, Address(grown, s.chunk, s.offset), s.data, used', stored[k]);
      }
    }
  }

  lemma MoreChunks(before: seq<seq<Byte>>, grown: seq<seq<Byte>>, used: nat, stored: seq<Stored>)
    requires AllReadable(before, used, stored) && before <= grown && used <= |Concat(grown)|
    ensures AllReadable(grown, used, stored)
  {
    assert Concat(grown) == Put(Concat(grown), used, []);
    forall k | 0 <= k < |stored|
      ensures Readable(grown, used, stored[k])
    {
      StillReadable(before, grown, grown, used, used, [], used, stored[k]);
    }
  }

  // ----- the heap -----

  datatype HeapError = NothingToStore | TooLargeForChunk

  class FixHeapManager {
    const chunkSize: nat
    const acrossChunks: bool
    var chunks: seq<seq<Byte>>
    var currentIdx: int
    var currentOffset: nat
    /** Every value stored so far. */
    ghost var stored: seq<Stored>

    constructor (chunkSize: nat, acrossChunks: bool)
      requires chunkSize > 0
      ensures Valid() && stored == [] && chunks == []
      ensures this.chunkSize == chunkSize && this.acrossChunks == acrossChunks
    {
      this.chunkSize := chunkSize;
      this.acrossChunks := acrossChunks;
      chunks, currentIdx, currentOffset := [], -1, 0;
      stored := [];
    }

    ghost predicate Shape()
      reads this
    {
      && chunkSize > 0 && |chunks| == currentIdx + 1
      && (forall i | 0 <= i < |chunks| :: |chunks[i]| == chunkSize)
      && currentOffset <= chunkSize && (chunks == [] ==> currentOffset == 0)
    }

    /** The address behind the last byte given out. */
    ghost function Used(): nat
      requires Shape()
      reads this
    {
      if chunks == [] then 0 else Address(chunks, currentIdx, currentOffset)
    }

    /** Every value stored so far can be read; without crossing, it lies in one chunk. */
    ghost predicate Valid()
      reads this
    {
      && Shape()
      && AllReadable(chunks, Used(), stored)
      && (forall k | 0 <= k < |stored| :: stored[k].offset <= chunkSize)
      && (!acrossChunks ==> forall k | 0 <= k < |stored| :: stored[k].offset + |stored[k].data| <= chunkSize)
    }

    lemma UsedFits()
      requires Shape()
      ensures Used() <= |Concat(chunks)|
    {
      if chunks != [] {
        NextChunk(chunks, currentIdx);
        LastChunk(chunks);
      }
    }

    /** The value at a place that was given out. */
    lemma StoredAt(s: Stored)
      requires Valid() && s in stored
      ensures s.chunk < |chunks| && s.offset <= chunkSize && (!acrossChunks ==> s.offset + |s.data| <= chunkSize)
      ensures BytesAt(chunks, s.chunk, s.offset, |s.data|) == Some(s.data)
    {
      var k :| 0 <= k < |stored| && stored[k] == s;
      ReadBack(chunks, Used(), s);
    }

    /** A value that starts within the first `n` chunks' worth of bytes is in one of these chunks. */
    lemma AmongFirst(s: Stored, n: nat)
      requires Valid() && s in stored && Used() - |s.data| < n * chunkSize
      ensures s.chunk < |chunks| && s.chunk < n && s.offset <= chunkSize
    {
      var k :| 0 <= k < |stored| && stored[k] == s;
      assert Readable(chunks, Used(), stored[k]);
      ChunksBefore(s.chunk);
      if s.chunk >= n {
        Fewer(n, s.chunk, chunkSize);
      }
    }

    lemma {:induction false} ChunksBefore(chunk: nat)
      requires Shape() && chunk <= |chunks|
      ensures Address(chunks, chunk, 0) == chunk * chunkSize
    {
      if chunk > 0 {
        ChunksBefore(chunk - 1);
        NextChunk(chunks, chunk - 1);
      }
    }

    method AddChunk()
      requires Shape()
      modifies this`chunks, this`currentIdx
      ensures Shape() && |chunks| == old(|chunks|) + 1 && old(chunks) <= chunks
    {
      chunks := chunks + [seq(chunkSize, _ => 0)];
      currentIdx := currentIdx + 1;
    }

    /** The part of `Allocate` for values that may cross chunks: they start right behind the last byte given out. */
    method AllocateAcross(n: nat) returns (chunk: nat, offset: nat)
      requires Shape() && chunks != [] && n > 0
      modifies this`chunks, this`currentIdx, this`currentOffset
      ensures Shape() && old(chunks) <= chunks
      ensures chunk < |chunks| && offset <= chunkSize
      ensures Address(chunks, chunk, offset) == old(Used()) && Used() == old(Used()) + n
    {
      chunk, offset := currentIdx, currentOffset;
      if currentOffset + n > chunkSize {
        var rest: nat := n - (chunkSize - currentOffset);
        while rest > chunkSize
          invariant Shape() && old(chunks) <= chunks
          invariant Address(chunks, currentIdx, chunkSize) + rest == old(Used()) + n
        {
          AddChunkBehind();
          rest := rest - chunkSize;
        }
        AddChunkBehind();
        currentOffset := rest;
        Grown(old(chunks), chunks, chunk, offset);
      } else {
        currentOffset := currentOffset + n;
      }
    }

    method AddChunkBehind()
      requires Shape() && chunks != []
      modifies this`chunks, this`currentIdx
      ensures Shape() && currentIdx == old(currentIdx) + 1 && old(chunks) <= chunks
      ensures Address(chunks, currentIdx, 0) == old(Address(chunks, currentIdx, chunkSize))
    {
      AddChunk();
      Grown(old(chunks), chunks, currentIdx - 1, chunkSize);
      NextChunk(chunks, currentIdx - 1);
    }

    /** The place of `n` new bytes: behind all bytes given out before, and within the chunks. */
    method Allocate(n: nat) returns (r: Result<(nat, nat), HeapError>)
      requires Shape()
      modifies this`chunks, this`currentIdx, this`currentOffset
      ensures Shape() && old(chunks) <= chunks
      ensures r.Failure? <==> n == 0 || (!acrossChunks && n > chunkSize)
      ensures r.Failure? ==> Used() == old(Used())
      ensures !acrossChunks ==> |chunks| <= old(|chunks|) + 1
      ensures r.Success? ==> Used() <= old(Used()) + 2 * n
      ensures r.Success? ==>
        var (chunk, offset) := r.value;
        && chunk < |chunks| && offset <= chunkSize && (!acrossChunks ==> offset + n <= chunkSize)
        && old(Used()) <= Address(chunks, chunk, offset) && Address(chunks, chunk, offset) + n == Used()
        && (acrossChunks ==> Used() == old(Used()) + n)
    {
      if n == 0 {
        return Failure(NothingToStore);
      }
      if currentIdx == -1 {
        AddChunk();
      }
      assert Used() == old(Used()) && old(chunks) <= chunks;
      if !acrossChunks {
        if n > chunkSize {
          return Failure(TooLargeForChunk);
        }
        if currentOffset + n <= chunkSize {
          var offset := currentOffset;
          currentOffset := currentOffset + n;
          return Success((currentIdx, offset));
        }
        AddChunkBehind();
        currentOffset := n;
        return Success((currentIdx, 0));
      }
      var chunk, offset := AllocateAcross(n);
      return Success((chunk, offset));
    }

    /** Writes `data` into one chunk. */
    method PutInChunk(chunk: nat, offset: nat, data: seq<Byte>)
      requires Shape() && chunk < |chunks| && offset + |data| <= chunkSize
      modifies this`chunks
      ensures Shape() && |chunks| == old(|chunks|)
      ensures var at := Address(old(chunks), chunk, offset);
        at + |data| <= old(|Concat(chunks)|) && Concat(chunks) == Put(old(Concat(chunks)), at, data)
      ensures Address(chunks, chunk, offset) == old(Address(chunks, chunk, offset))
    {
      ChunkPut(chunks, chunk, offset, data);
      chunks := chunks[chunk := chunks[chunk][..offset] + data + chunks[chunk][offset + |data|..]];
      SameAddress(old(chunks), chunks, chunk, offset);
    }

    /** A place with room behind it lies in an existing chunk. */
    lemma ChunkExists(chunk: nat, offset: nat)
      requires Shape() && chunk <= |chunks| && Address(chunks, chunk, offset) < |Concat(chunks)|
      ensures chunk < |chunks|
    {
      LastChunk(chunks);
    }

    /** Writes the next part of `data`, as much as the chunk takes; `done` bytes of it are already at `at`. */
    method WriteNext(chunk0: nat, offset0: nat, data: seq<Byte>, done0: nat, ghost bytes: seq<Byte>, ghost at: nat)
      returns (chunk: nat, offset: nat, done: nat)
      requires Shape() && chunk0 < |chunks| && offset0 <= chunkSize && done0 < |data|
      requires at + |data| <= |bytes| && Address(chunks, chunk0, offset0) == at + done0
      requires Concat(chunks) == Put(bytes, at, data[..done0])
      modifies this`chunks
      ensures Shape() && |chunks| == old(|chunks|) && done0 <= done <= |data|
      ensures chunk <= |chunks| && offset <= chunkSize && (done == done0 ==> chunk > chunk0)
      ensures Concat(chunks) == Put(bytes, at, data[..done])
      ensures done < |data| ==> Address(chunks, chunk, offset) == at + done
    {
      var size := Min(|data| - done0, chunkSize - offset0);
      PutPiece(chunk0, offset0, data[done0..done0 + size], bytes, at, data, done0);
      chunk, offset, done := chunk0, offset0, done0 + size;
      if done < |data| {
        NextChunk(chunks, chunk0);
        chunk, offset := chunk0 + 1, 0;
      }
    }

    /** The loop of `AppendToHeap`: writes `data` chunk by chunk. */
    method Write(chunk0: nat, offset0: nat, data: seq<Byte>)
      requires Shape() && chunk0 < |chunks| && offset0 <= chunkSize
      requires Address(chunks, chunk0, offset0) + |data| <= |Concat(chunks)|
      modifies this`chunks
      ensures Shape() && |chunks| == old(|chunks|)
      ensures Concat(chunks) == Put(old(Concat(chunks)), old(Address(chunks, chunk0, offset0)), data)
    {
      ghost var bytes, at := Concat(chunks), Address(chunks, chunk0, offset0);
      PutNothing(bytes, at);
      var chunk: nat, offset: nat, done: nat := chunk0, offset0, 0;
      while done < |data|
        invariant Shape() && |chunks| == old(|chunks|) && chunk <= |chunks| && offset <= chunkSize && done <= |data|
        invariant done < |data| ==> Address(chunks, chunk, offset) == at + done
        invariant Concat(chunks) == Put(bytes, at, data[..done])
        decreases |data| - done, |chunks| - chunk
      {
        ChunkExists(chunk, offset);
        chunk, offset, done := WriteNext(chunk, offset, data, done, bytes, at);
      }
      assert data[..|data|] == data;
    }

    /** Stores a value and gives out its place; every value stored before stays readable. */
    method AppendToHeap(data: seq<Byte>) returns (r: Result<(nat, nat), HeapError>)
      requires Valid()
      modifies this
      ensures Valid()
      ensures r.Failure? <==> data == [] || (!acrossChunks && |data| > chunkSize)
      ensures stored == if r.Success? then old(stored) + [Stored(r.value.0, r.value.1, data)] else old(stored)
      ensures !acrossChunks ==> |chunks| <= old(|chunks|) + 1
      ensures Used() <= old(Used()) + (if r.Success? then 2 * |data| else 0)
      ensures acrossChunks && r.Success? ==> Used() == old(Used()) + |data|
    {
      r := Allocate(|data|);
      ghost var grown := chunks;
      UsedFits();
      if r.Success? {
        Write(r.value.0, r.value.1, data);
        SameAddress(grown, chunks, currentIdx, currentOffset);
        Record(old(chunks), old(Used()), grown, Stored(r.value.0, r.value.1, data));
      } else {
        MoreChunks(old(chunks), grown, Used(), stored);
      }
    }

    /** The new value joins the stored ones. */
    ghost method Record(before: seq<seq<Byte>>, used: nat, grown: seq<seq<Byte>>, s: Stored)
      requires Shape() && AllReadable(before, used, stored) && before <= grown
      requires forall k | 0 <= k < |stored| :: stored[k].offset <= chunkSize
      requires !acrossChunks ==> forall k | 0 <= k < |stored| :: stored[k].offset + |stored[k].data| <= chunkSize
      requires |grown| == |chunks| && forall i | 0 <= i < |grown| :: |grown[i]| == chunkSize
      requires s.chunk < |grown| && s.offset <= chunkSize && (!acrossChunks ==> s.offset + |s.data| <= chunkSize)
      requires var at := Address(grown, s.chunk, s.offset);
        && used <= at && at + |s.data| == Address(grown, currentIdx, currentOffset) <= |Concat(grown)|
        && Concat(chunks) == Put(Concat(grown), at, s.data)
      modifies this`stored
      ensures Valid() && stored == old(stored) + [s]
    {
      SameAddress(grown, chunks, currentIdx, currentOffset);
      OneMore(before, grown, chunks, used, Used(), stored, s);
      stored := stored + [s];
    }

    /** Reads `n` bytes chunk by chunk; None when a chunk is missing. */
    method ReadFromHeap(chunk: nat, offset: nat, n: nat) returns (r: Option<seq<Byte>>)
      requires Shape() && offset <= chunkSize
      ensures r == BytesAt(chunks, chunk, offset, n)
    {
      if n == 0 {
        return Some([]);
      }
      if chunk >= |chunks| {
        return None;
      }
      r := ReadFromChunk(chunk, offset, n);
    }

    /** `GetRawPtrFromChunk`, read for `n` bytes that lie in the chunk. */
    method ReadRaw(chunk: nat, offset: nat, n: nat) returns (r: seq<Byte>)
      requires Shape() && chunk < |chunks| && offset + n <= chunkSize
      ensures Some(r) == BytesAt(chunks, chunk, offset, n)
    {
      ChunkBytes(chunks, chunk, offset, n);
      r := chunks[chunk][offset..offset + n];
    }

    /** `buffer` holds the first bytes from address `at` on, and the next one is at this place. */
    ghost predicate Reading(at: nat, n: nat, buffer: seq<Byte>, chunk: nat, offset: nat)
      requires Shape()
      reads this
    {
      && offset <= chunkSize && |buffer| <= n && chunk <= |chunks|
      && (|buffer| < n ==> Address(chunks, chunk, offset) == at + |buffer|)
      && at + |buffer| <= |Concat(chunks)| && buffer == Concat(chunks)[at..at + |buffer|]
    }

    lemma ReadOn(at: nat, buffer: seq<Byte>, chunk: nat, offset: nat, size: nat)
      requires Shape() && chunk < |chunks| && offset + size <= chunkSize
      requires Address(chunks, chunk, offset) == at + |buffer| <= |Concat(chunks)|
      requires buffer == Concat(chunks)[at..at + |buffer|]
      ensures var next := at + |buffer| + size;
        next <= |Concat(chunks)| && buffer + chunks[chunk][offset..offset + size] == Concat(chunks)[at..next]
    {
      ChunkBytes(chunks, chunk, offset, size);
      SliceJoin(Concat(chunks), at, at + |buffer|, at + |buffer| + size);
    }

    /** The next bytes, as many as the chunk holds. */
    method ReadNext(ghost at: nat, n: nat, buffer0: seq<Byte>, chunk0: nat, offset0: nat)
      returns (buffer: seq<Byte>, chunk: nat, offset: nat)
      requires Shape() && Reading(at, n, buffer0, chunk0, offset0) && |buffer0| < n && chunk0 < |chunks|
      ensures Reading(at, n, buffer, chunk, offset) && |buffer0| <= |buffer|
      ensures |buffer| < n ==> chunk == chunk0 + 1
    {
      var size := Min(n - |buffer0|, chunkSize - offset0);
      buffer := buffer0 + chunks[chunk0][offset0..offset0 + size];
      ReadOn(at, buffer0, chunk0, offset0, size);
      chunk, offset := chunk0, offset0;
      if |buffer| < n {
        NextChunk(chunks, chunk0);
        chunk, offset := chunk0 + 1, 0;
      }
    }

    method ReadFromChunk(chunk0: nat, offset0: nat, n: nat) returns (r: Option<seq<Byte>>)
      requires Shape() && chunk0 < |chunks| && offset0 <= chunkSize && n > 0
      ensures r == BytesAt(chunks, chunk0, offset0, n)
    {
      var buffer: seq<Byte> := [];
      var chunk: nat, offset: nat := chunk0, offset0;
      ghost var at := Address(chunks, chunk0, offset0);
      ChunkBytes(chunks, chunk0, offset0, 0);
      LastChunk(chunks);
      while |buffer| < n
        invariant Reading(at, n, buffer, chunk, offset)
        decreases n - |buffer|, |chunks| - chunk
      {
        if chunk == |chunks| {
          return None;
        }
        buffer, chunk, offset := ReadNext(at, n, buffer, chunk, offset);
      }
      return Some(buffer);
    }

    /** How much of the next `left` bytes one round copies. */
    function RoundSize(src: FixHeapManager, srcOffset: nat, offset: nat, left: nat): nat
      requires srcOffset <= src.chunkSize && offset <= chunkSize
    {
      if left > src.chunkSize - srcOffset then Min(chunkSize - offset, src.chunkSize - srcOffset)
      else Min(chunkSize - offset, left)
    }

    /** The bytes to copy are `data`; within one heap they lie before the place they are copied to. */
    ghost predicate Source(src: FixHeapManager, from: nat, n: nat, data: seq<Byte>, at: nat)
      reads src
    {
      && src.Shape() && from + n <= |Concat(src.chunks)| && data == Concat(src.chunks)[from..from + n]
      && (src == this ==> from + n <= at)
    }

    /** Copying within this heap, behind the source, does not change the source. */
    lemma SourceKept(before: seq<seq<Byte>>, bytes: seq<Byte>, at: nat, put: seq<Byte>, put': seq<Byte>,
                     from: nat, n: nat, data: seq<Byte>, chunk: nat, offset: nat)
      requires Shape() && |before| == |chunks| && forall i | 0 <= i < |before| :: |before[i]| == chunkSize
      requires at + |put| <= |bytes| && at + |put'| <= |bytes| && from + n <= at && chunk <= |chunks|
      requires Concat(before) == Put(bytes, at, put) && Concat(chunks) == Put(bytes, at, put')
      requires data == Concat(before)[from..from + n]
      ensures Source(this, from, n, data, at) && Address(chunks, chunk, offset) == Address(before, chunk, offset)
    {
      PutBehind(bytes, at, put, from, from + n);
      PutBehind(bytes, at, put', from, from + n);
      SameAddress(before, chunks, chunk, offset);
    }

    /** The next bytes of `data`, in their chunk of the source. */
    lemma NextPiece(all: seq<seq<Byte>>, chunk: nat, offset: nat, size: nat, data: seq<Byte>, from: nat, done: nat)
      requires chunk < |all| && offset + size <= |all[chunk]| && Address(all, chunk, offset) == from + done
      requires from + |data| <= |Concat(all)| && data == Concat(all)[from..from + |data|] && done + size <= |data|
      ensures all[chunk][offset..offset + size] == data[done..done + size]
    {
      ChunkBytes(all, chunk, offset, size);
      SliceOfSlice(Concat(all), from, from + |data|, done, done + size);
    }

    /** Writes the next bytes of `data` behind those already there. */
    method PutPiece(chunk: nat, offset: nat, piece: seq<Byte>, ghost bytes: seq<Byte>, ghost at: nat,
                    ghost data: seq<Byte>, ghost done: nat)
      requires Shape() && chunk < |chunks| && offset + |piece| <= chunkSize && done + |piece| <= |data|
      requires piece == data[done..done + |piece|] && at + |data| <= |bytes|
      requires Address(chunks, chunk, offset) == at + done && Concat(chunks) == Put(bytes, at, data[..done])
      modifies this`chunks
      ensures Shape() && |chunks| == old(|chunks|) && Address(chunks, chunk, offset) == at + done
      ensures Concat(chunks) == Put(bytes, at, data[..done + |piece|])
    {
      PutMore(bytes, at, data, 0, data, done, |piece|);
      PutInChunk(chunk, offset, piece);
    }

    /** `done` bytes of `data` are copied to `at`, and these are the next places to copy from and to. */
    ghost predicate Copying(src: FixHeapManager, srcChunk: nat, srcOffset: nat, chunk: nat, offset: nat, done: nat,
                            bytes: seq<Byte>, at: nat, data: seq<Byte>, from: nat)
      reads this, src
    {
      && Shape() && chunk <= |chunks| && offset <= chunkSize && done <= |data| && at + |data| <= |bytes|
      && Source(src, from, |data|, data, at) && srcChunk <= |src.chunks| && srcOffset <= src.chunkSize
      && Address(chunks, chunk, offset) == at + done && Address(src.chunks, srcChunk, srcOffset) == from + done
      && Concat(chunks) == Put(bytes, at, data[..done])
    }

    /** Copies what the two chunks allow; the heaps' chunks may differ in size. */
    method CopyPiece(src: FixHeapManager, srcChunk: nat, srcOffset: nat, chunk: nat, offset: nat, done: nat, size: nat,
                     ghost bytes: seq<Byte>, ghost at: nat, ghost data: seq<Byte>, ghost from: nat)
      requires Copying(src, srcChunk, srcOffset, chunk, offset, done, bytes, at, data, from)
      requires srcChunk < |src.chunks| && chunk < |chunks| && done + size <= |data|
      requires srcOffset + size <= src.chunkSize && offset + size <= chunkSize
      modifies this`chunks
      ensures Shape() && |chunks| == old(|chunks|) && |src.chunks| == old(|src.chunks|)
      ensures Address(chunks, chunk, offset) == at + done && Concat(chunks) == Put(bytes, at, data[..done + size])
      ensures Source(src, from, |data|, data, at) && Address(src.chunks, srcChunk, srcOffset) == from + done
    {
      NextPiece(src.chunks, srcChunk, srcOffset, size, data, from, done);
      PutPiece(chunk, offset, src.chunks[srcChunk][srcOffset..srcOffset + size], bytes, at, data, done);
      if src == this {
        SourceKept(old(chunks), bytes, at, data[..done], data[..done + size], from, |data|, data, srcChunk, srcOffset);
      }
    }

    /** One round of copying. */
    method CopyNext(src: FixHeapManager, srcChunk0: nat, srcOffset0: nat, chunk0: nat, offset0: nat, n: nat, done0: nat,
                    ghost bytes: seq<Byte>, ghost at: nat, ghost data: seq<Byte>, ghost from: nat)
      returns (srcChunk: nat, srcOffset: nat, chunk: nat, offset: nat, done: nat)
      requires Copying(src, srcChunk0, srcOffset0, chunk0, offset0, done0, bytes, at, data, from) && done0 < n == |data|
      modifies this`chunks
      ensures |chunks| == old(|chunks|)
      ensures Copying(src, srcChunk, srcOffset, chunk, offset, done, bytes, at, data, from) && done0 <= done
      ensures done == done0 ==> Full(offset) + src.Full(srcOffset) < Full(offset0) + src.Full(srcOffset0)
    {
      ChunkExists(chunk0, offset0);
      src.ChunkExists(srcChunk0, srcOffset0);
      var size := RoundSize(src, srcOffset0, offset0, n - done0);
      CopyPiece(src, srcChunk0, srcOffset0, chunk0, offset0, done0, size, bytes, at, data, from);
      done := done0 + size;
      chunk, offset := Advance(chunk0, offset0, size);
      srcChunk, srcOffset := src.Advance(srcChunk0, srcOffset0, size);
    }

    /** The place `size` bytes further on; it is never at the end of a chunk. */
    method Advance(chunk0: nat, offset0: nat, size: nat) returns (chunk: nat, offset: nat)
      requires Shape() && chunk0 < |chunks| && offset0 + size <= chunkSize
      ensures chunk <= |chunks| && offset < chunkSize
      ensures Address(chunks, chunk, offset) == Address(chunks, chunk0, offset0) + size
    {
      if offset0 + size == chunkSize {
        NextChunk(chunks, chunk0);
        return chunk0 + 1, 0;
      }
      return chunk0, offset0 + size;
    }

    ghost function Full(offset: nat): nat {
      if offset == chunkSize then 1 else 0
    }

    lemma CopyStart(src: FixHeapManager, srcChunk: nat, srcOffset: nat, chunk: nat, offset: nat, n: nat,
                    data: seq<Byte>)
      requires srcChunk < |src.chunks| && srcOffset <= src.chunkSize
      requires Shape() && chunk < |chunks| && offset <= chunkSize
      requires Source(src, Address(src.chunks, srcChunk, srcOffset), n, data, Address(chunks, chunk, offset))
      requires Address(chunks, chunk, offset) + n <= |Concat(chunks)|
      ensures |data| == n
      ensures var at, from := Address(chunks, chunk, offset), Address(src.chunks, srcChunk, srcOffset);
        Copying(src, srcChunk, srcOffset, chunk, offset, 0, Concat(chunks), at, data, from)
    {
      PutNothing(Concat(chunks), Address(chunks, chunk, offset));
    }

    /** The copying loop. */
    method CopyFrom(src: FixHeapManager, srcChunk0: nat, srcOffset0: nat, chunk0: nat, offset0: nat, n: nat,
                    ghost data: seq<Byte>)
      requires srcChunk0 < |src.chunks| && srcOffset0 <= src.chunkSize
      requires Shape() && chunk0 < |chunks| && offset0 <= chunkSize
      requires Source(src, Address(src.chunks, srcChunk0, srcOffset0), n, data, Address(chunks, chunk0, offset0))
      requires Address(chunks, chunk0, offset0) + n <= |Concat(chunks)|
      modifies this`chunks
      ensures Shape() && |chunks| == old(|chunks|)
      ensures |data| == n && Concat(chunks) == Put(old(Concat(chunks)), old(Address(chunks, chunk0, offset0)), data)
    {
      ghost var at, from := Address(chunks, chunk0, offset0), Address(src.chunks, srcChunk0, srcOffset0);
      ghost var bytes := Concat(chunks);
      CopyStart(src, srcChunk0, srcOffset0, chunk0, offset0, n, data);
      var chunk: nat, offset: nat, done: nat := chunk0, offset0, 0;
      var srcChunk: nat, srcOffset: nat := srcChunk0, srcOffset0;
      while done < n
        invariant Copying(src, srcChunk, srcOffset, chunk, offset, done, bytes, at, data, from)
        invariant |chunks| == old(|chunks|)
        decreases n - done, Full(offset) + src.Full(srcOffset)
      {
        srcChunk, srcOffset, chunk, offset, done :=
          CopyNext(src, srcChunk, srcOffset, chunk, offset, n, done, bytes, at, data, from);
      }
      assert data[..n] == data;
    }

    /** New chunks leave the bytes to copy where they are. */
    lemma SourceGrown(before: seq<seq<Byte>>, chunk: nat, offset: nat, n: nat, data: seq<Byte>)
      requires before <= chunks && n > 0 && BytesAt(before, chunk, offset, n) == Some(data)
      ensures Address(before, chunk, offset) == Address(chunks, chunk, offset)
      ensures BytesAt(chunks, chunk, offset, n) == Some(data)
    {
      Grown(before, chunks, chunk, offset);
      assert chunks == before + chunks[|before|..];
      ConcatAppend(before, chunks[|before|..]);
      var at := Address(before, chunk, offset);
      PrefixSlice(Concat(before), Concat(chunks[|before|..]), at, at + n);
    }

    /**
     Copies a value from a heap, this one or another: the same as reading it there and storing it here. Within
     one heap it must have been given out before.
     */
    method AppendFromHeap(src: FixHeapManager, srcChunk: nat, srcOffset: nat, n: nat, ghost data: seq<Byte>)
      returns (r: Result<(nat, nat), HeapError>)
      requires Valid() && src.Shape() && srcChunk < |src.chunks| && srcOffset <= src.chunkSize
      requires BytesAt(src.chunks, srcChunk, srcOffset, n) == Some(data)
      requires src == this ==> Address(chunks, srcChunk, srcOffset) + n <= Used()
      modifies this
      ensures Valid()
      ensures r.Failure? <==> n == 0 || (!acrossChunks && n > chunkSize)
      ensures stored == if r.Success? then old(stored) + [Stored(r.value.0, r.value.1, data)] else old(stored)
    {
      r := Allocate(n);
      ghost var grown := chunks;
      UsedFits();
      if r.Success? {
        FindSource(src, old(chunks), srcChunk, srcOffset, n, data, Address(chunks, r.value.0, r.value.1));
        CopyFrom(src, srcChunk, srcOffset, r.value.0, r.value.1, n, data);
        Record(old(chunks), old(Used()), grown, Stored(r.value.0, r.value.1, data));
      } else {
        MoreChunks(old(chunks), grown, Used(), stored);
      }
    }

    lemma FindSource(src: FixHeapManager, before: seq<seq<Byte>>, chunk: nat, offset: nat, n: nat, data: seq<Byte>,
                     at: nat)
      requires n > 0 && src.Shape() && chunk <= |src.chunks|
      requires src != this ==> BytesAt(src.chunks, chunk, offset, n) == Some(data)
      requires src == this ==>
        && before <= chunks && BytesAt(before, chunk, offset, n) == Some(data)
        && Address(before, chunk, offset) + n <= at
      ensures Source(src, Address(src.chunks, chunk, offset), n, data, at)
    {
      if src == this {
        SourceGrown(before, chunk, offset, n, data);
      }
    }
  }
}
