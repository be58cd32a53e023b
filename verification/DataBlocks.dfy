/**
 Rows stored in blocks of DEFAULT_BLOCK_CAPACITY rows, all full except the last one, and the two
 helpers of physical_top.cpp that write and shift such blocks.
 */
module DataBlocks {
  import opened Sequences

  const CAPACITY: nat := 8192

  function Min(a: int, b: int): int {
    if a < b then a else b
  }

  /** Number of blocks for `n` rows. */
  function BlockCount(n: nat): nat {
    n / CAPACITY + if n % CAPACITY != 0 then 1 else 0
  }

  /** Block number `b` of the given rows. */
  function Chunk<T>(rows: seq<T>, b: nat): seq<T>
    requires b * CAPACITY <= |rows|
  {
    rows[b * CAPACITY..Min(|rows|, (b + 1) * CAPACITY)]
  }

  /** The rows cut into blocks. */
  ghost predicate Packed<T>(blocks: seq<seq<T>>, rows: seq<T>) {
    && |blocks| == BlockCount(|rows|)
    && forall b: nat | b < |blocks| :: b * CAPACITY <= |rows| && blocks[b] == Chunk(rows, b)
  }

  /** Row number `i` is in block `i / CAPACITY` at offset `i % CAPACITY`. */
  lemma PackedRow<T>(blocks: seq<seq<T>>, rows: seq<T>, i: nat)
    requires Packed(blocks, rows) && i < |rows|
    ensures i / CAPACITY < |blocks| && i % CAPACITY < |blocks[i / CAPACITY]|
    ensures blocks[i / CAPACITY][i % CAPACITY] == rows[i]
  {
    assert blocks[i / CAPACITY] == Chunk(rows, i / CAPACITY);
  }

  ghost function Concat<T>(blocks: seq<seq<T>>): seq<T> {
    if blocks == [] then [] else Concat(blocks[..|blocks| - 1]) + blocks[|blocks| - 1]
  }

  lemma {:induction false} ConcatAppend<T>(a: seq<seq<T>>, b: seq<seq<T>>)
    ensures Concat(a + b) == Concat(a) + Concat(b)
  {
    if b == [] {
      assert a + b == a;
    } else {
      var n := |b| - 1;
      var all := a + b;
      assert all[..|all| - 1] == a + b[..n] && all[|all| - 1] == b[n];
      ConcatAppend(a, b[..n]);
      Associate(Concat(a), Concat(b[..n]), b[n]);
    }
  }

  lemma ConcatOne<T>(block: seq<T>)
    ensures Concat([block]) == block
  {
    assert [block][..0] == [];
  }

  lemma ConcatCons<T>(block: seq<T>, rest: seq<seq<T>>)
    ensures Concat([block] + rest) == block + Concat(rest)
  {
    ConcatOne(block);
    ConcatAppend([block], rest);
  }

  /** The rows around one block. */
  lemma ConcatAround<T>(blocks: seq<seq<T>>, p: nat)
    requires p < |blocks|
    ensures Concat(blocks) == Concat(blocks[..p]) + (blocks[p] + Concat(blocks[p + 1..]))
  {
    AroundElement(blocks, p);
    ConcatAppend(blocks[..p], [blocks[p]] + blocks[p + 1..]);
    ConcatCons(blocks[p], blocks[p + 1..]);
  }

  /** Number of rows in a list of blocks. */
  method CountRows<T>(blocks: seq<seq<T>>) returns (n: nat)
    ensures n == |Concat(blocks)|
  {
    n := 0;
    for i := 0 to |blocks|
      invariant n == |Concat(blocks[..i])|
    {
      assert blocks[..i + 1][..i] == blocks[..i];
      n := n + |blocks[i]|;
    }
    assert blocks[..|blocks|] == blocks;
  }

  /** Reading packed blocks one after the other gives the rows back. */
  lemma {:induction false} PackedConcat<T>(blocks: seq<seq<T>>, rows: seq<T>, n: nat)
    requires Packed(blocks, rows) && n <= |blocks|
    ensures Concat(blocks[..n]) == rows[..Min(|rows|, n * CAPACITY)]
  {
    if n > 0 {
      PackedConcat(blocks, rows, n - 1);
      assert blocks[..n][..n - 1] == blocks[..n - 1];
      assert blocks[n - 1] == Chunk(rows, n - 1);
    }
  }

  lemma NoBlocks(n: nat)
    ensures BlockCount(n) == 0 <==> n == 0
    ensures n <= BlockCount(n) * CAPACITY
  {
  }

  /** All blocks together hold the rows. */
  lemma PackedRows<T>(blocks: seq<seq<T>>, rows: seq<T>)
    requires Packed(blocks, rows)
    ensures Concat(blocks) == rows && (blocks == [] <==> rows == [])
  {
    NoBlocks(|rows|);
    PackedConcat(blocks, rows, |blocks|);
    assert blocks[..|blocks|] == blocks && rows[..|rows|] == rows;
  }

  /** Writes the chosen rows, in order, into as many blocks as they need. */
  method WriteToOutput<T>(rows: seq<T>) returns (blocks: seq<seq<T>>)
    ensures rows != [] ==> Packed(blocks, rows)
    ensures rows == [] ==> blocks == [[]]
  {
    var count: nat := if |rows| == 0 then 1 else BlockCount(|rows|);
    blocks := seq(count, _ => []);
    var outputBlock, outputRow, next := 0, 0, 0;
    while next < |rows|
      invariant next <= |rows| && |blocks| == count
      invariant outputBlock * CAPACITY + outputRow == next && outputRow <= CAPACITY
      invariant outputBlock < count
      invariant forall b: nat | b < outputBlock :: (b + 1) * CAPACITY <= next && blocks[b] == Chunk(rows, b)
      invariant blocks[outputBlock] == rows[outputBlock * CAPACITY..next]
      invariant forall b: nat | outputBlock < b < count :: blocks[b] == []
    {
      if outputRow == CAPACITY {
        outputBlock := outputBlock + 1;
        outputRow := 0;
      }
      blocks := blocks[outputBlock := blocks[outputBlock] + [rows[next]]];
      outputRow := outputRow + 1;
      next := next + 1;
    }
    if rows != [] {
      forall b: nat | b < |blocks| ensures b * CAPACITY <= |rows| && blocks[b] == Chunk(rows, b) {
      }
    }
  }

  /** What is left of `rows` after skipping `offset` of them. */
  function Skip<T>(rows: seq<T>, offset: nat): seq<T> {
    if offset < |rows| then rows[offset..] else []
  }

  /** The rows at positions `offset` to `offset + limit`. */
  function Window<T>(rows: seq<T>, offset: nat, limit: nat): seq<T> {
    if offset < |rows| then rows[offset..Min(|rows|, offset + limit)] else []
  }

  /** Rows in the middle of one block. */
  lemma BlockSlice<T>(blocks: seq<seq<T>>, rows: seq<T>, b: nat, from: nat, count: nat)
    requires Packed(blocks, rows) && b < |blocks|
    requires from + count <= CAPACITY && b * CAPACITY + from + count <= |rows|
    ensures from + count <= |blocks[b]|
    ensures blocks[b][from..from + count] == rows[b * CAPACITY + from..b * CAPACITY + from + count]
  {
    assert blocks[b] == Chunk(rows, b);
    SliceOfSlice(rows, b * CAPACITY, Min(|rows|, (b + 1) * CAPACITY), from, from + count);
  }

  /** The `count` rows from row `start` on, which reach at most into the next block. */
  method ReadRows<T>(blocks: seq<seq<T>>, start: nat, count: nat, ghost output: seq<seq<T>>, ghost rows: seq<T>)
    returns (r: seq<T>)
    requires Packed(output, rows) && |blocks| == |output|
    requires 0 < count <= CAPACITY && start + count <= |rows|
    requires forall b: nat | start / CAPACITY <= b < |blocks| :: blocks[b] == output[b]
    ensures r == rows[start..start + count]
  {
    var startBlock := start / CAPACITY;
    var startOffset := start % CAPACITY;
    var startCopy := Min(count, CAPACITY - startOffset);
    BlockSlice(output, rows, startBlock, startOffset, startCopy);
    r := blocks[startBlock][startOffset..startOffset + startCopy];
    var nextCopy := count - startCopy;
    if nextCopy > 0 {
      BlockSlice(output, rows, startBlock + 1, 0, nextCopy);
      r := r + blocks[startBlock + 1][..nextCopy];
    }
  }

  lemma LaterChunk<T>(rows: seq<T>, k: nat, b: nat)
    requires (k + b) * CAPACITY <= |rows|
    ensures Chunk(rows[k * CAPACITY..], b) == Chunk(rows, k + b)
  {
    SliceOfSuffix(rows, k * CAPACITY, b * CAPACITY, Min(|rows| - k * CAPACITY, (b + 1) * CAPACITY));
  }

  lemma FewerBlocks(n: nat, k: nat)
    requires k * CAPACITY <= n
    ensures k <= BlockCount(n) && BlockCount(n - k * CAPACITY) == BlockCount(n) - k
  {
  }

  lemma ErasedBlocks<T>(blocks: seq<seq<T>>, rows: seq<T>, k: nat)
    requires Packed(blocks, rows) && k * CAPACITY < |rows|
    ensures k <= |blocks| && Packed(blocks[k..], rows[k * CAPACITY..])
  {
    FewerBlocks(|rows|, k);
    var rest := blocks[k..];
    forall b: nat | b < |rest|
      ensures b * CAPACITY <= |rows[k * CAPACITY..]| && rest[b] == Chunk(rows[k * CAPACITY..], b)
    {
      assert rest[b] == blocks[k + b] == Chunk(rows, k + b);
      LaterChunk(rows, k, b);
    }
  }

  lemma ShiftedChunk<T>(rows: seq<T>, offset: nat, i: nat)
    requires offset < |rows| && i < BlockCount(|rows| - offset)
    ensures var copyRows := Min(CAPACITY, |rows| - offset - i * CAPACITY);
      && 0 < copyRows && i * CAPACITY <= |rows| - offset
      && rows[offset + i * CAPACITY..offset + i * CAPACITY + copyRows] == Chunk(rows[offset..], i)
  {
  }

  /** Shifts every row `offset` places to the front, block by block from the first, in place. */
  method ShiftBlocks<T>(offset: nat, output: seq<seq<T>>, ghost rows: seq<T>, resultRows: nat)
    returns (blocks: seq<seq<T>>)
    requires Packed(output, rows) && 0 < offset < |rows| && offset % CAPACITY != 0 && resultRows == |rows| - offset
    ensures |blocks| == BlockCount(resultRows)
    ensures forall b: nat | b < |blocks| :: b * CAPACITY <= resultRows && blocks[b] == Chunk(rows[offset..], b)
  {
    blocks := output;
    var swapBlock: seq<T> := [];
    if offset >= CAPACITY {
      blocks, swapBlock := blocks[0 := []], blocks[0];
    }
    var resultBlocks := BlockCount(resultRows);
    for i := 0 to resultBlocks
      invariant |blocks| == |output| && resultBlocks <= |blocks|
      invariant forall b: nat | b < i :: b * CAPACITY <= resultRows && blocks[b] == Chunk(rows[offset..], b)
      invariant forall b: nat | i <= b < |blocks| && (offset < CAPACITY || b > 0) :: blocks[b] == output[b]
    {
      ShiftedChunk(rows, offset, i);
      var copyRows := Min(CAPACITY, resultRows - i * CAPACITY);
      swapBlock := ReadRows(blocks, offset + i * CAPACITY, copyRows, output, rows);
      blocks, swapBlock := blocks[i := swapBlock], blocks[i];
    }
    blocks := blocks[..resultBlocks];
  }

  lemma PackedNothing<T>(rows: seq<T>, offset: nat)
    requires offset >= |rows|
    ensures Packed([], Skip(rows, offset))
  {
  }

  lemma PackedShifted<T>(blocks: seq<seq<T>>, rows: seq<T>, offset: nat)
    requires offset < |rows| && |blocks| == BlockCount(|rows| - offset)
    requires forall b: nat | b < |blocks| ::
      b * CAPACITY <= |rows| - offset && blocks[b] == Chunk(rows[offset..], b)
    ensures Packed(blocks, Skip(rows, offset))
  {
    assert Skip(rows, offset) == rows[offset..];
  }

  /** Drops the first `offset` rows. */
  method HandleOutputOffset<T>(total: nat, offset: nat, output: seq<seq<T>>, ghost rows: seq<T>)
    returns (blocks: seq<seq<T>>)
    requires Packed(output, rows) && total == |rows|
    ensures Packed(blocks, Skip(rows, offset))
  {
    if offset == 0 {
      assert Skip(rows, 0) == rows;
      return output;
    }
    if offset >= total {
      PackedNothing(rows, offset);
      return [];
    }
    if offset % CAPACITY == 0 {
      blocks := EraseBlocks(offset, output, rows);
      return;
    }
    blocks := ShiftBlocks(offset, output, rows, total - offset);
    PackedShifted(blocks, rows, offset);
  }

  /** Drops whole blocks. */
  method EraseBlocks<T>(offset: nat, output: seq<seq<T>>, ghost rows: seq<T>) returns (blocks: seq<seq<T>>)
    requires Packed(output, rows) && offset < |rows| && offset % CAPACITY == 0
    ensures Packed(blocks, Skip(rows, offset))
  {
    ErasedBlocks(output, rows, offset / CAPACITY);
    blocks := output[offset / CAPACITY..];
  }
}
