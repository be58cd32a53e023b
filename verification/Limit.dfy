/**
 LIMIT ... OFFSET without ORDER BY: the operator of src/executor/operator/physical_limit.cpp with the
 counter it uses, and the plan that src/executor/physical_planner.cpp builds for several tasklets.
 */
module Limit {
  import opened Integers
  import opened Sequences
  import opened Wrappers
  import opened DataBlocks

  // ----- the counter -----

  /** How many rows are still to be skipped and to be passed on. */
  datatype Counter = Counter(offset: int, limit: int)

  /** `UnSyncCounter::Offset`: the new counter and the returned row number, in unsigned 64-bit arithmetic. */
  function TakeOffset(c: Counter, rows: nat): (r: (Counter, nat))
    requires rows < TWO64
    ensures r.0.limit == c.limit && (c.offset >= 0 ==> 0 <= r.0.offset <= c.offset)
  {
    if c.offset <= 0 then (c, 0)
    else if c.offset - rows > 0 then (c.(offset := c.offset - rows), (rows - 1) % TWO64)
    else (c.(offset := 0), c.offset)
  }

  /** `UnSyncCounter::Limit`. */
  function TakeLimit(c: Counter, rows: nat): (r: (Counter, nat))
    ensures r.0.offset == c.offset && r.1 <= rows
    ensures c.limit >= 0 ==> r.0.limit >= 0 && r.0.limit + r.1 == c.limit
  {
    if c.limit <= 0 then (c, 0)
    else if c.limit - rows > 0 then (c.(limit := c.limit - rows), rows)
    else (c.(limit := 0), c.limit)
  }

  // ----- the operator -----

  /** Copying `count` rows from row `from` of a block; None when that runs past its rows. */
  function Copy<T>(block: seq<T>, from: nat, count: nat): Option<seq<T>> {
    if count == 0 then Some([])
    else if from + count <= |block| then Some(block[from..from + count])
    else None
  }

  /** Where copying starts: the first block at which `offset` is no longer larger than its row count. */
  function StartBlock<T>(blocks: seq<seq<T>>, offset: nat, i: nat): (r: (nat, nat))
    requires i <= |blocks|
    ensures r.0 <= |blocks|
    decreases |blocks| - i
  {
    if i == |blocks| then (0, offset)
    else if |blocks[i]| == 0 then StartBlock(blocks, offset, i + 1)
    else if offset > |blocks[i]| then StartBlock(blocks, offset - |blocks[i]|, i + 1)
    else (i, offset)
  }

  /** The blocks copied from block `i` on; None when a copy runs past a block. */
  function CopyFrom<T>(blocks: seq<seq<T>>, i: nat, offset: nat, limit: nat): Option<seq<seq<T>>>
    requires i <= |blocks|
    decreases |blocks| - i
  {
    if i == |blocks| then Some([])
    else if |blocks[i]| == 0 then CopyFrom(blocks, i + 1, offset, limit)
    else
      var count := Min(limit, |blocks[i]|);
      var copied := Copy(blocks[i], offset, count);
      if copied.None? then None
      else if limit == count then Some([copied.value])
      else
        var rest := CopyFrom(blocks, i + 1, 0, limit - count);
        if rest.None? then None else Some([copied.value] + rest.value)
  }

  /** One call of the operator: the new counter and the output, None if a copy ran past a block. */
  ghost function Run<T>(blocks: seq<seq<T>>, c: Counter): (Counter, Option<seq<seq<T>>>)
    requires |Concat(blocks)| < TWO64
  {
    var n := |Concat(blocks)|;
    var (c1, offset) := TakeOffset(c, n);
    if offset == n then (c1, Some([]))
    else
      var (c2, limit) := TakeLimit(c1, (n - offset) % TWO64);
      var (start, rest) := StartBlock(blocks, offset, 0);
      (c2, CopyFrom(blocks, start, rest, limit))
  }

  // ----- what a call should do -----

  /** The rows of the blocks from number `i` on, one after the other. */
  ghost function RowsFrom<T>(blocks: seq<seq<T>>, i: nat): seq<T>
    requires i <= |blocks|
    decreases |blocks| - i
  {
    if i == |blocks| then [] else blocks[i] + RowsFrom(blocks, i + 1)
  }

  /** How far `offset` lies beyond `n` rows. */
  function Beyond(offset: nat, n: nat): nat {
    if offset > n then offset - n else 0
  }

  /** A negative OFFSET skips nothing, a negative LIMIT passes nothing on. */
  function Skip(c: Counter): nat {
    if c.offset > 0 then c.offset else 0
  }

  function Take(c: Counter): nat {
    if c.limit > 0 then c.limit else 0
  }

  /** The call passes on exactly the requested rows of these blocks and counts them. */
  ghost predicate Correct<T>(blocks: seq<seq<T>>, c: Counter)
    requires |Concat(blocks)| < TWO64
  {
    var rows := Concat(blocks);
    var wanted := Window(rows, Skip(c), Take(c));
    var (c', output) := Run(blocks, c);
    && output.Some? && Concat(output.value) == wanted
    && c' == Counter(if c.offset < 0 then c.offset else Beyond(c.offset, |rows|), c.limit - |wanted|)
  }

  /** The position after the last row of the block that holds row `p`. */
  ghost function BlockEnd<T>(blocks: seq<seq<T>>, i: nat, p: nat): nat
    requires i <= |blocks|
    decreases |blocks| - i
  {
    if i == |blocks| then 0
    else if p < |blocks[i]| then |blocks[i]| else |blocks[i]| + BlockEnd(blocks, i + 1, p - |blocks[i]|)
  }

  lemma {:induction false} RowsFromConcat<T>(blocks: seq<seq<T>>, i: nat)
    requires i <= |blocks|
    ensures RowsFrom(blocks, i) == Concat(blocks[i..])
    decreases |blocks| - i
  {
    if i < |blocks| {
      RowsFromConcat(blocks, i + 1);
      assert blocks[i..] == [blocks[i]] + blocks[i + 1..];
      ConcatCons(blocks[i], blocks[i + 1..]);
    }
  }

  lemma FromStart<T>(blocks: seq<seq<T>>)
    ensures RowsFrom(blocks, 0) == Concat(blocks)
  {
    RowsFromConcat(blocks, 0);
    assert blocks[0..] == blocks;
  }

  /** Copying from the start of a block is always right. */
  lemma {:induction false} CopyWhole<T>(blocks: seq<seq<T>>, i: nat, limit: nat)
    requires i <= |blocks|
    ensures CopyFrom(blocks, i, 0, limit).Some?
    ensures Concat(CopyFrom(blocks, i, 0, limit).value) == RowsFrom(blocks, i)[..Min(limit, |RowsFrom(blocks, i)|)]
    decreases |blocks| - i
  {
    if i < |blocks| {
      var block := blocks[i];
      if |block| == 0 {
        CopyWhole(blocks, i + 1, limit);
        assert block + RowsFrom(blocks, i + 1) == RowsFrom(blocks, i + 1);
      } else {
        var count := Min(limit, |block|);
        var copied := Copy(block, 0, count).value;
        assert copied == block[..count];
        if limit == count {
          ConcatOne(copied);
        } else {
          CopyWhole(blocks, i + 1, limit - count);
          ConcatCons(copied, CopyFrom(blocks, i + 1, 0, limit - count).value);
        }
      }
    }
  }

  /** Copying from inside a block is right exactly when the block holds all the rows wanted. */
  lemma CopyInside<T>(blocks: seq<seq<T>>, i: nat, r: nat, limit: nat)
    requires i < |blocks| && 1 <= r <= |blocks[i]| && limit >= 1
    ensures CopyFrom(blocks, i, r, limit).Some? <==> r + limit <= |blocks[i]|
    ensures r + limit <= |blocks[i]| ==> Concat(CopyFrom(blocks, i, r, limit).value) == blocks[i][r..r + limit]
  {
    if r + limit <= |blocks[i]| {
      ConcatOne(blocks[i][r..r + limit]);
    }
  }

  /** Skipping ends in the block of the last skipped row, and the `k` rows after it are those of the input. */
  lemma {:induction false} StartInside<T>(blocks: seq<seq<T>>, i: nat, offset: nat, k: nat)
    requires i <= |blocks| && 1 <= offset <= |RowsFrom(blocks, i)|
    ensures var (b, r) := StartBlock(blocks, offset, i);
      && b < |blocks| && 1 <= r <= |blocks[b]|
      && BlockEnd(blocks, i, offset - 1) - offset == |blocks[b]| - r
      && (r + k <= |blocks[b]| ==>
            && offset + k <= |RowsFrom(blocks, i)|
            && RowsFrom(blocks, i)[offset..offset + k] == blocks[b][r..r + k])
    decreases |blocks| - i
  {
    var block := blocks[i];
    var rows, later := RowsFrom(blocks, i), RowsFrom(blocks, i + 1);
    assert rows == block + later;
    if offset > |block| {
      var rest := offset - |block|;
      StartInside(blocks, i + 1, rest, k);
      var (b, r) := StartBlock(blocks, rest, i + 1);
      assert StartBlock(blocks, offset, i) == (b, r);
      if r + k <= |blocks[b]| {
        assert rows[offset..offset + k] == later[rest..rest + k];
      }
    } else if offset + k <= |block| {
      assert rows[offset..offset + k] == block[offset..offset + k];
    }
  }

  /** When a call is right: the requested rows start at a call boundary, or lie in the block of the last skipped row. */
  ghost predicate Aligned<T>(blocks: seq<seq<T>>, c: Counter) {
    var n := |Concat(blocks)|;
    || c.limit <= 0
    || c.offset <= 0
    || c.offset == n
    || (c.offset < n && c.offset + Min(c.limit, n - c.offset) <= BlockEnd(blocks, 0, c.offset - 1))
  }

  class PhysicalLimit {
    var offset: int
    var limit: int

    constructor (offset: int, limit: int)
      ensures this.offset == offset && this.limit == limit
    {
      this.offset := offset;
      this.limit := limit;
    }

    ghost function State(): Counter
      reads this
    {
      Counter(offset, limit)
    }

    method Offset(rows: nat) returns (r: nat)
      requires rows < TWO64
      modifies this
      ensures (State(), r) == TakeOffset(old(State()), rows)
    {
      if offset <= 0 {
        return 0;
      }
      var last := offset - rows;
      if last > 0 {
        r := (rows - 1) % TWO64;
        offset := last;
      } else {
        r := offset;
        offset := 0;
      }
    }

    method Limit(rows: nat) returns (r: nat)
      modifies this
      ensures (State(), r) == TakeLimit(old(State()), rows)
    {
      if limit <= 0 {
        return 0;
      }
      var last := limit - rows;
      if last > 0 {
        r := rows;
        limit := last;
      } else {
        r := limit;
        limit := 0;
      }
    }

    /** `PhysicalLimit::Execute`. */
    method Execute<T>(blocks: seq<seq<T>>) returns (output: Option<seq<seq<T>>>)
      requires |Concat(blocks)| < TWO64
      modifies this
      ensures (State(), output) == Run(blocks, old(State()))
    {
      var rows := CountRows(blocks);
      var skip: nat := Offset(rows);
      if skip == rows {
        return Some([]);
      }
      var left: nat := Limit((rows - skip) % TWO64);
      var start := 0;
      var i := 0;
      while i < |blocks|
        invariant i <= |blocks| && start == 0
        invariant StartBlock(blocks, skip, i) == StartBlock(blocks, TakeOffset(old(State()), rows).1, 0)
      {
        if |blocks[i]| != 0 {
          if skip > |blocks[i]| {
            skip := skip - |blocks[i]|;
          } else {
            start := i;
            break;
          }
        }
        i := i + 1;
      }
      output := CopyBlocks(blocks, start, skip, left);
    }

    method CopyBlocks<T>(blocks: seq<seq<T>>, start: nat, skip: nat, limit: nat) returns (output: Option<seq<seq<T>>>)
      requires start <= |blocks|
      ensures output == CopyFrom(blocks, start, skip, limit)
    {
      var result: seq<seq<T>> := [];
      var offset: nat, left: nat := skip, limit;
      ghost var whole := CopyFrom(blocks, start, skip, limit);
      AfterNone(whole);
      for i := start to |blocks|
        invariant whole == After(result, CopyFrom(blocks, i, offset, left))
      {
        ghost var before := result;
        if |blocks[i]| == 0 {
          continue;
        }
        var copied := Copy(blocks[i], offset, if left >= |blocks[i]| then |blocks[i]| else left);
        if copied.None? {
          return None;
        }
        left := if left >= |blocks[i]| then left - |blocks[i]| else 0;
        result := result + [copied.value];
        offset := 0;
        if left == 0 {
          return Some(result);
        }
        AfterOne(before, copied.value, CopyFrom(blocks, i + 1, 0, left));
      }
      assert result + [] == result;
      return Some(result);
    }
  }

  // ----- exactly when the operator is right -----

  lemma RunUnskipped<T>(blocks: seq<seq<T>>, c: Counter, limit: nat)
    requires c.offset <= 0 && 0 < |Concat(blocks)| < TWO64
    requires limit == Min(Take(c), |Concat(blocks)|)
    ensures var (b, r) := StartBlock(blocks, 0, 0);
      Run(blocks, c) == (Counter(c.offset, c.limit - limit), CopyFrom(blocks, b, r, limit))
  {
    var n := |Concat(blocks)|;
    assert n % TWO64 == n;
  }

  lemma NothingToSkip<T>(blocks: seq<seq<T>>, c: Counter)
    requires c.offset <= 0 && |Concat(blocks)| < TWO64
    ensures Correct(blocks, c)
  {
    FromStart(blocks);
    var n := |Concat(blocks)|;
    if n > 0 {
      RunUnskipped(blocks, c, Min(Take(c), n));
      StartAtFirst(blocks, 0);
      var start := StartBlock(blocks, 0, 0).0;
      EmptyBefore(blocks, 0, start);
      CopyWhole(blocks, start, Min(Take(c), n));
    }
  }

  /** With nothing to skip, copying starts at the first block that has rows. */
  lemma {:induction false} StartAtFirst<T>(blocks: seq<seq<T>>, i: nat)
    requires i <= |blocks| && |RowsFrom(blocks, i)| > 0
    ensures var (b, r) := StartBlock(blocks, 0, i);
      i <= b < |blocks| && r == 0 && forall k | i <= k < b :: |blocks[k]| == 0
    decreases |blocks| - i
  {
    if |blocks[i]| == 0 {
      StartAtFirst(blocks, i + 1);
    }
  }

  lemma {:induction false} EmptyBefore<T>(blocks: seq<seq<T>>, i: nat, b: nat)
    requires i <= b <= |blocks| && forall k | i <= k < b :: |blocks[k]| == 0
    ensures RowsFrom(blocks, i) == RowsFrom(blocks, b)
    decreases b - i
  {
    if i < b {
      EmptyBefore(blocks, i + 1, b);
      assert blocks[i] == [];
    }
  }

  lemma RunInside<T>(blocks: seq<seq<T>>, c: Counter, limit: nat)
    requires 1 <= c.offset < |Concat(blocks)| < TWO64 && c.limit >= 1
    requires limit == Min(c.limit, |Concat(blocks)| - c.offset)
    ensures var (b, r) := StartBlock(blocks, c.offset, 0);
      Run(blocks, c) == (Counter(0, c.limit - limit), CopyFrom(blocks, b, r, limit))
  {
    var left := |Concat(blocks)| - c.offset;
    assert left % TWO64 == left;
  }

  /** What is right when the skipped rows end inside: the copied rows are the wanted ones. */
  lemma CorrectInside<T>(blocks: seq<seq<T>>, c: Counter, limit: nat, copied: Option<seq<seq<T>>>)
    requires 1 <= c.offset < |Concat(blocks)| < TWO64 && c.limit >= 1
    requires limit == Min(c.limit, |Concat(blocks)| - c.offset)
    requires Run(blocks, c) == (Counter(0, c.limit - limit), copied)
    ensures Correct(blocks, c) <==>
      copied.Some? && Concat(copied.value) == Concat(blocks)[c.offset..c.offset + limit]
  {
  }

  /** The copied rows are the wanted ones exactly if they end in the block where copying starts. */
  lemma CopiedInside<T>(blocks: seq<seq<T>>, offset: nat, limit: nat)
    requires 1 <= offset < |Concat(blocks)| && 1 <= limit <= |Concat(blocks)| - offset
    ensures var (b, r) := StartBlock(blocks, offset, 0);
      var copied := CopyFrom(blocks, b, r, limit);
      copied.Some? && Concat(copied.value) == Concat(blocks)[offset..offset + limit] <==>
        offset + limit <= BlockEnd(blocks, 0, offset - 1)
  {
    FromStart(blocks);
    StartInside(blocks, 0, offset, limit);
    var (b, r) := StartBlock(blocks, offset, 0);
    CopyInside(blocks, b, r, limit);
  }

  lemma SkipsInside<T>(blocks: seq<seq<T>>, c: Counter)
    requires 1 <= c.offset < |Concat(blocks)| && c.limit >= 1 && |Concat(blocks)| < TWO64
    ensures Correct(blocks, c) <==> Aligned(blocks, c)
  {
    var limit := Min(c.limit, |Concat(blocks)| - c.offset);
    var (b, r) := StartBlock(blocks, c.offset, 0);
    RunInside(blocks, c, limit);
    CorrectInside(blocks, c, limit, CopyFrom(blocks, b, r, limit));
    CopiedInside(blocks, c.offset, limit);
  }

  lemma SkipsTooMuch<T>(blocks: seq<seq<T>>, c: Counter)
    requires c.offset > |Concat(blocks)| && c.limit >= 1 && |Concat(blocks)| < TWO64
    ensures !Correct(blocks, c)
  {
    TooMuchCounted(c, |Concat(blocks)|);
  }

  /** The counter gives up one of the rows to pass on. */
  lemma TooMuchCounted(c: Counter, n: nat)
    requires c.offset > n && c.limit >= 1 && n < TWO64
    ensures TakeOffset(c, n).1 != n
    ensures TakeLimit(TakeOffset(c, n).0, (n - TakeOffset(c, n).1) % TWO64).0.limit == c.limit - 1
  {
    if n == 0 {
      assert -1 % TWO64 == TWO64 - 1 && (0 - (TWO64 - 1)) % TWO64 == 1;
    } else {
      assert (n - 1) % TWO64 == n - 1;
    }
  }

  lemma NothingToTake<T>(blocks: seq<seq<T>>, c: Counter)
    requires c.offset >= 0 && c.limit <= 0 && |Concat(blocks)| < TWO64
    ensures Correct(blocks, c)
  {
    FromStart(blocks);
    var n := |Concat(blocks)|;
    var offset := TakeOffset(c, n).1;
    if offset != n {
      var (start, rest) := StartBlock(blocks, offset, 0);
      CopyNothing(blocks, start, rest);
    }
  }

  lemma {:induction false} CopyNothing<T>(blocks: seq<seq<T>>, i: nat, offset: nat)
    requires i <= |blocks|
    ensures CopyFrom(blocks, i, offset, 0).Some? && Concat(CopyFrom(blocks, i, offset, 0).value) == []
    decreases |blocks| - i
  {
    if i < |blocks| {
      if |blocks[i]| == 0 {
        CopyNothing(blocks, i + 1, offset);
      } else {
        ConcatOne<T>([]);
      }
    }
  }

  /**
   A call passes on the requested rows, and keeps the right count for the next call, exactly when nothing is
   wanted, nothing is to be skipped, all rows are to be skipped, or the wanted rows lie in the
   block of the last skipped row. In particular it goes wrong whenever more rows are to be
   skipped than the call brings.
   */
  lemma LimitExactly<T>(blocks: seq<seq<T>>, c: Counter)
    requires |Concat(blocks)| < TWO64
    ensures Correct(blocks, c) <==> Aligned(blocks, c)
  {
    FromStart(blocks);
    if c.offset <= 0 {
      NothingToSkip(blocks, c);
    } else if c.limit <= 0 {
      NothingToTake(blocks, c);
    } else if c.offset < |Concat(blocks)| {
      SkipsInside(blocks, c);
    } else if c.offset > |Concat(blocks)| {
      SkipsTooMuch(blocks, c);
    }
  }

  /** LIMIT 1 OFFSET 3 over a block of two rows passes on the second row, although none is wanted. */
  lemma SkippedRowPassedOn<T>(a: T, b: T)
    ensures Run([[a, b]], Counter(3, 1)) == (Counter(1, 0), Some([[b]]))
    ensures Window(Concat([[a, b]]), 3, 1) == []
  {
    var blocks := [[a, b]];
    ConcatOne([a, b]);
    assert blocks[1..] == [];
    assert |Concat(blocks)| == 2;
    assert [a, b][1..2] == [b];
    assert CopyFrom(blocks, 0, 1, 1) == Some([[b]]);
  }

  /** OFFSET 1 LIMIT 2 over a block of two rows and one of one row copies past the end of the first block. */
  lemma CopiedPastEnd<T>(a: T, b: T, c: T)
    ensures Concat([[a, b], [c]]) == [a, b, c] && Window([a, b, c], 1, 2) == [b, c]
    ensures Run([[a, b], [c]], Counter(1, 2)) == (Counter(0, 0), None)
  {
    var blocks := [[a, b], [c]];
    ConcatOne([c]);
    assert blocks == [[a, b]] + [[c]];
    ConcatCons([a, b], [[c]]);
    assert Concat(blocks) == [a, b, c] && [a, b, c][1..3] == [b, c];
    assert CopyFrom(blocks, 0, 1, 2) == None;
  }

  // ----- one call, whatever it does -----

  /** A call: its rows, the counter before and after it, the rows it passes on, and whether it meets `Aligned`. */
  datatype Call<T> = Call(rows: seq<T>, before: Counter, after: Counter, passed: Option<seq<T>>, aligned: bool)

  ghost function CallOf<T>(blocks: seq<seq<T>>, c: Counter): Call<T>
    requires |Concat(blocks)| < TWO64
  {
    var (c', output) := Run(blocks, c);
    Call(Concat(blocks), c, c', if output.None? then None else Some(Concat(output.value)), Aligned(blocks, c))
  }

  /**
   A call that is right passes on what is wanted. One without rows, while rows are to be skipped, takes one row off
   the limit. Any other fails or passes on its last row, which should be skipped.
   */
  ghost predicate Behaves<T>(r: Call<T>) {
    var wanted := Window(r.rows, Skip(r.before), Take(r.before));
    if r.aligned then
      && r.passed == Some(wanted)
      && Skip(r.after) == Beyond(Skip(r.before), |r.rows|) && Take(r.after) == Take(r.before) - |wanted|
    else if r.rows == [] then
      && r.passed == Some([]) && Skip(r.before) > 0 && Take(r.before) > 0
      && Skip(r.after) == Skip(r.before) && Take(r.after) == Take(r.before) - 1
    else
      r.passed.Some? ==> |r.rows| < Skip(r.before) && r.passed.value == [r.rows[|r.rows| - 1]]
  }

  /** A call without rows, while rows are to be skipped, only takes one row off the limit. */
  lemma EmptyCall<T>(blocks: seq<seq<T>>, c: Counter)
    requires Concat(blocks) == [] && !Aligned(blocks, c)
    ensures var (c', output) := Run(blocks, c);
      c' == Counter(c.offset, c.limit - 1) && output.Some? && Concat(output.value) == []
  {
    FromStart(blocks);
    TooMuchCounted(c, 0);
    var (c1, offset) := TakeOffset(c, 0);
    var limit := TakeLimit(c1, (0 - offset) % TWO64).1;
    var (start, rest) := StartBlock(blocks, offset, 0);
    AllEmpty(blocks, 0);
    CopyEmpty(blocks, start, rest, limit);
  }

  lemma {:induction false} AllEmpty<T>(blocks: seq<seq<T>>, i: nat)
    requires i <= |blocks| && RowsFrom(blocks, i) == []
    ensures forall k | i <= k < |blocks| :: blocks[k] == []
    decreases |blocks| - i
  {
    if i < |blocks| {
      assert |RowsFrom(blocks, i)| == |blocks[i]| + |RowsFrom(blocks, i + 1)|;
      AllEmpty(blocks, i + 1);
    }
  }

  lemma {:induction false} CopyEmpty<T>(blocks: seq<seq<T>>, i: nat, offset: nat, limit: nat)
    requires i <= |blocks| && forall k | 0 <= k < |blocks| :: blocks[k] == []
    ensures CopyFrom(blocks, i, offset, limit) == Some([])
    decreases |blocks| - i
  {
    if i < |blocks| {
      CopyEmpty(blocks, i + 1, offset, limit);
    }
  }

  /** More rows are to be skipped than the call brings: at best its last row is passed on. */
  lemma LastRowPassed<T>(blocks: seq<seq<T>>, c: Counter)
    requires 0 < |Concat(blocks)| < TWO64 && c.offset > |Concat(blocks)| && c.limit > 0
    ensures var output := Run(blocks, c).1;
      output.Some? ==> Concat(output.value) == [Concat(blocks)[|Concat(blocks)| - 1]]
  {
    FromStart(blocks);
    RunTooMuch(blocks, c);
    LastCopied(blocks, |Concat(blocks)|);
  }

  lemma LastCopied<T>(blocks: seq<seq<T>>, n: nat)
    requires n == |RowsFrom(blocks, 0)| > 0
    ensures var (start, rest) := StartBlock(blocks, n - 1, 0);
      var output := CopyFrom(blocks, start, rest, 1);
      output.Some? ==> Concat(output.value) == [RowsFrom(blocks, 0)[n - 1]]
  {
    var rows := RowsFrom(blocks, 0);
    var (start, rest) := StartBlock(blocks, n - 1, 0);
    if n == 1 {
      OnlyRow(blocks, start, rest);
    } else {
      StartInside(blocks, 0, n - 1, 1);
      CopyInside(blocks, start, rest, 1);
      assert rows[n - 1..n] == [rows[n - 1]];
    }
  }

  lemma OnlyRow<T>(blocks: seq<seq<T>>, start: nat, rest: nat)
    requires |RowsFrom(blocks, 0)| == 1 && (start, rest) == StartBlock(blocks, 0, 0)
    ensures start <= |blocks| && CopyFrom(blocks, start, rest, 1).Some?
    ensures Concat(CopyFrom(blocks, start, rest, 1).value) == [RowsFrom(blocks, 0)[0]]
  {
    StartAtFirst(blocks, 0);
    EmptyBefore(blocks, 0, start);
    CopyWhole(blocks, start, 1);
    assert RowsFrom(blocks, 0)[..1] == [RowsFrom(blocks, 0)[0]];
  }

  lemma RunTooMuch<T>(blocks: seq<seq<T>>, c: Counter)
    requires 0 < |Concat(blocks)| < TWO64 && c.offset > |Concat(blocks)| && c.limit > 0
    ensures var (start, rest) := StartBlock(blocks, |Concat(blocks)| - 1, 0);
      Run(blocks, c).1 == CopyFrom(blocks, start, rest, 1)
  {
    var n := |Concat(blocks)|;
    assert (n - 1) % TWO64 == n - 1;
  }

  lemma CrossesBlocks<T>(blocks: seq<seq<T>>, c: Counter)
    requires 0 < c.offset < |Concat(blocks)| < TWO64 && !Aligned(blocks, c)
    ensures Run(blocks, c).1 == None
  {
    FromStart(blocks);
    var limit := Min(c.limit, |Concat(blocks)| - c.offset);
    RunInside(blocks, c, limit);
    StartInside(blocks, 0, c.offset, limit);
    var (b, r) := StartBlock(blocks, c.offset, 0);
    CopyInside(blocks, b, r, limit);
  }

  lemma CallBehaves<T>(blocks: seq<seq<T>>, c: Counter)
    requires |Concat(blocks)| < TWO64
    ensures Behaves(CallOf(blocks, c))
  {
    if Aligned(blocks, c) {
      LimitExactly(blocks, c);
    } else if Concat(blocks) == [] {
      EmptyCall(blocks, c);
    } else if c.offset > |Concat(blocks)| {
      LastRowPassed(blocks, c);
    } else {
      CrossesBlocks(blocks, c);
    }
  }

  // ----- whole streams of calls -----

  /** Calls one after the other, each with the counter that the one before left. */
  ghost predicate Stream<T>(rs: seq<Call<T>>, c: Counter) {
    rs == [] || (rs[0].before == c && Behaves(rs[0]) && Stream(rs[1..], rs[0].after))
  }

  ghost function AllRows<T>(rs: seq<Call<T>>): seq<T> {
    if rs == [] then [] else rs[0].rows + AllRows(rs[1..])
  }

  /** The rows that a stream passes on, None if some copy runs past a block. */
  ghost function PassedOn<T>(rs: seq<Call<T>>): Option<seq<T>> {
    if rs == [] then Some([])
    else
      var rest := PassedOn(rs[1..]);
      if rs[0].passed.None? || rest.None? then None else Some(rs[0].passed.value + rest.value)
  }

  /** Every call is right or has no rows. */
  ghost predicate Harmless<T>(rs: seq<Call<T>>) {
    rs == [] || ((rs[0].aligned || rs[0].rows == []) && Harmless(rs[1..]))
  }

  /** How many calls are not right; the harmless ones of them take one row off the limit each. */
  ghost function Spent<T>(rs: seq<Call<T>>): nat {
    if rs == [] then 0 else (if rs[0].aligned then 0 else 1) + Spent(rs[1..])
  }

  /** When a whole stream is right: its calls are harmless, and the rows spent are not missed. */
  ghost predicate RightStream<T>(rs: seq<Call<T>>, c: Counter) {
    Harmless(rs) && (Spent(rs) == 0 || |AllRows(rs)| + Spent(rs) <= Skip(c) + Take(c))
  }

  lemma InFirst<T>(a: seq<T>, b: seq<T>, i: nat, j: nat)
    requires i <= j <= |a|
    ensures (a + b)[i..j] == a[i..j]
  {
  }

  lemma InSecond<T>(a: seq<T>, b: seq<T>, i: nat, j: nat)
    requires |a| <= i <= j <= |a| + |b|
    ensures (a + b)[i..j] == b[i - |a|..j - |a|]
  {
  }

  lemma WindowBehind<T>(a: seq<T>, b: seq<T>, offset: nat, limit: nat)
    requires offset >= |a|
    ensures Window(a + b, offset, limit) == Window(b, offset - |a|, limit)
  {
    if offset < |a| + |b| {
      InSecond(a, b, offset, Min(|a| + |b|, offset + limit));
    }
  }

  lemma WindowAcross<T>(a: seq<T>, b: seq<T>, offset: nat, limit: nat)
    requires offset < |a|
    ensures Window(a + b, offset, limit) == Window(a, offset, limit) + Window(b, 0, Beyond(offset + limit, |a|))
  {
    var all, end := a + b, Min(|a| + |b|, offset + limit);
    if end <= |a| {
      InFirst(a, b, offset, end);
      assert Window(b, 0, Beyond(offset + limit, |a|)) == [];
    } else {
      SliceJoin(all, offset, |a|, end);
      InFirst(a, b, offset, |a|);
      InSecond(a, b, |a|, end);
    }
  }

  lemma WindowAppend<T>(a: seq<T>, b: seq<T>, offset: nat, limit: nat)
    ensures |Window(a, offset, limit)| <= limit
    ensures Window(a + b, offset, limit)
         == Window(a, offset, limit) + Window(b, Beyond(offset, |a|), limit - |Window(a, offset, limit)|)
  {
    if offset >= |a| {
      WindowBehind(a, b, offset, limit);
    } else {
      WindowAcross(a, b, offset, limit);
    }
  }

  /** The first rows of a window; while rows are still to be skipped, `spent` rows may be taken off the limit. */
  lemma WindowSpent<T>(a: seq<T>, b: seq<T>, offset: nat, limit: nat, spent: nat)
    requires spent <= limit - |Window(a, offset, limit)| && (offset <= |a| ==> spent == 0)
    ensures Window(a + b, offset, limit - spent)
         == Window(a, offset, limit) + Window(b, Beyond(offset, |a|), limit - |Window(a, offset, limit)| - spent)
  {
    if offset <= |a| {
      WindowAppend(a, b, offset, limit);
    } else {
      WindowBehind(a, b, offset, limit - spent);
    }
  }

  /** What is passed on is the window with the spent rows taken off the limit. */
  lemma {:induction false} SpentStream<T>(rs: seq<Call<T>>, c: Counter)
    requires Stream(rs, c) && Harmless(rs)
    ensures Spent(rs) <= Take(c) && (Skip(c) == 0 ==> Spent(rs) == 0)
    ensures PassedOn(rs) == Some(Window(AllRows(rs), Skip(c), Take(c) - Spent(rs)))
  {
    if rs != [] {
      SpentStream(rs[1..], rs[0].after);
      CallThenStream(rs[0], AllRows(rs[1..]), Spent(rs[1..]));
    }
  }

  lemma CallThenStream<T>(r: Call<T>, later: seq<T>, spent: nat)
    requires Behaves(r) && (r.aligned || r.rows == [])
    requires spent <= Take(r.after) && (Skip(r.after) == 0 ==> spent == 0)
    ensures var all := spent + if r.aligned then 0 else 1;
      && all <= Take(r.before) && (Skip(r.before) == 0 ==> all == 0) && r.passed.Some?
      && Window(r.rows + later, Skip(r.before), Take(r.before) - all)
         == r.passed.value + Window(later, Skip(r.after), Take(r.after) - spent)
  {
    if r.aligned {
      RightThenStream(r, later, spent);
    } else {
      EmptyThenStream(r, later, spent);
    }
  }

  lemma RightThenStream<T>(r: Call<T>, later: seq<T>, spent: nat)
    requires Behaves(r) && r.aligned && spent <= Take(r.after) && (Skip(r.after) == 0 ==> spent == 0)
    ensures spent <= Take(r.before) && (Skip(r.before) == 0 ==> spent == 0)
    ensures Window(r.rows + later, Skip(r.before), Take(r.before) - spent)
      == r.passed.value + Window(later, Skip(r.after), Take(r.after) - spent)
  {
    var offset, limit := Skip(r.before), Take(r.before);
    assert offset <= |r.rows| ==> spent == 0;
    WindowSpent(r.rows, later, offset, limit, spent);
  }

  lemma EmptyThenStream<T>(r: Call<T>, later: seq<T>, spent: nat)
    requires Behaves(r) && !r.aligned && r.rows == [] && spent <= Take(r.after)
    ensures Window(r.rows + later, Skip(r.before), Take(r.before) - spent - 1)
      == r.passed.value + Window(later, Skip(r.after), Take(r.after) - spent)
  {
    var w := Window(later, Skip(r.after), Take(r.after) - spent);
    assert r.rows + later == later && [] + w == w;
  }

  /** A stream with a call that is not harmless fails or passes on a row that should be skipped. */
  lemma {:induction false} HarmfulStream<T>(rs: seq<Call<T>>, c: Counter) returns (p: nat)
    requires Stream(rs, c) && !Harmless(rs)
    ensures PassedOn(rs).Some? ==> p < Skip(c) && p < |AllRows(rs)| && AllRows(rs)[p] in PassedOn(rs).value
  {
    var rows := rs[0].rows;
    if rs[0].aligned || rows == [] {
      var q := HarmfulStream(rs[1..], rs[0].after);
      p := |rows| + q;
    } else {
      p := |rows| - 1;
    }
  }

  ghost predicate Distinct<T>(s: seq<T>) {
    forall i, j | 0 <= i < j < |s| :: s[i] != s[j]
  }

  lemma NotInWindow<T>(s: seq<T>, offset: nat, limit: nat, p: nat)
    requires Distinct(s) && p < |s| && p < offset
    ensures s[p] !in Window(s, offset, limit)
  {
    var w := Window(s, offset, limit);
    forall i | 0 <= i < |w| ensures w[i] != s[p] {
      assert w[i] == s[offset + i];
    }
  }

  lemma FewerRows<T>(rows: seq<T>, offset: nat, limit: nat, spent: nat)
    requires spent <= limit
    ensures Window(rows, offset, limit - spent) == Window(rows, offset, limit)
      <==> spent == 0 || |rows| + spent <= offset + limit
  {
  }

  lemma StreamExactly<T>(rs: seq<Call<T>>, c: Counter)
    requires Stream(rs, c)
    ensures var wanted := Window(AllRows(rs), Skip(c), Take(c));
      && (RightStream(rs, c) ==> PassedOn(rs) == Some(wanted))
      && (Distinct(AllRows(rs)) ==> (RightStream(rs, c) <==> PassedOn(rs) == Some(wanted)))
  {
    var rows := AllRows(rs);
    if Harmless(rs) {
      SpentStream(rs, c);
      FewerRows(rows, Skip(c), Take(c), Spent(rs));
    } else if Distinct(rows) {
      var p := HarmfulStream(rs, c);
      if PassedOn(rs).Some? {
        NotInWindow(rows, Skip(c), Take(c), p);
      }
    }
  }

  // ----- the operator's streams -----

  ghost predicate Small<T>(calls: seq<seq<seq<T>>>) {
    forall i | 0 <= i < |calls| :: |Concat(calls[i])| < TWO64
  }

  ghost function Calls<T>(calls: seq<seq<seq<T>>>, c: Counter): seq<Call<T>>
    requires Small(calls)
  {
    if calls == [] then [] else [CallOf(calls[0], c)] + Calls(calls[1..], CallOf(calls[0], c).after)
  }

  /** The rows that a stream passes on, None if some copy runs past a block. */
  ghost function Passed<T>(calls: seq<seq<seq<T>>>, c: Counter): Option<seq<T>>
    requires Small(calls)
  {
    PassedOn(Calls(calls, c))
  }

  /**
   When a stream is right: each call meets its condition or has no rows, and the rows the latter cost are not
   missed.
   */
  ghost predicate StreamRight<T>(calls: seq<seq<seq<T>>>, c: Counter)
    requires Small(calls)
  {
    RightStream(Calls(calls, c), c)
  }

  lemma FirstCall<T>(calls: seq<seq<seq<T>>>)
    requires calls != []
    ensures Concat(Concat(calls)) == Concat(calls[0]) + Concat(Concat(calls[1..]))
  {
    assert calls == [calls[0]] + calls[1..];
    ConcatCons(calls[0], calls[1..]);
    ConcatAppend(calls[0], Concat(calls[1..]));
  }

  lemma {:induction false} CallsStream<T>(calls: seq<seq<seq<T>>>, c: Counter)
    requires Small(calls)
    ensures Stream(Calls(calls, c), c)
  {
    if calls != [] {
      var c' := CallOf(calls[0], c).after;
      CallBehaves(calls[0], c);
      CallsStream(calls[1..], c');
      assert Calls(calls, c)[1..] == Calls(calls[1..], c');
    }
  }

  lemma {:induction false} CallsRows<T>(calls: seq<seq<seq<T>>>, c: Counter)
    requires Small(calls)
    ensures AllRows(Calls(calls, c)) == Concat(Concat(calls))
  {
    if calls != [] {
      var c' := CallOf(calls[0], c).after;
      CallsRows(calls[1..], c');
      FirstCall(calls);
      assert Calls(calls, c)[1..] == Calls(calls[1..], c');
    }
  }

  /**
   A whole stream passes on the requested rows of the whole input exactly when each of its calls is right or has no
   rows, and the rows that the latter take off the limit are not missed. (Where equal rows cannot be told
   apart, a wrong row may look like a right one.)
   */
  lemma StreamIsWindow<T>(calls: seq<seq<seq<T>>>, c: Counter)
    requires Small(calls)
    ensures var wanted := Window(Concat(Concat(calls)), Skip(c), Take(c));
      && (StreamRight(calls, c) ==> Passed(calls, c) == Some(wanted))
      && (Distinct(Concat(Concat(calls))) ==> (StreamRight(calls, c) <==> Passed(calls, c) == Some(wanted)))
  {
    CallsStream(calls, c);
    CallsRows(calls, c);
    StreamExactly(Calls(calls, c), c);
  }

  /** With nothing to skip, every stream is right. */
  lemma {:induction false} NothingSpent<T>(calls: seq<seq<seq<T>>>, c: Counter)
    requires Small(calls) && Skip(c) == 0
    ensures Harmless(Calls(calls, c)) && Spent(Calls(calls, c)) == 0
  {
    if calls != [] {
      var r := CallOf(calls[0], c);
      CallBehaves(calls[0], c);
      NothingSpent(calls[1..], r.after);
      assert Calls(calls, c)[1..] == Calls(calls[1..], r.after);
    }
  }

  // ----- LIMIT over several tasklets -----

  lemma PartOf<T>(s: seq<T>, i: nat, j: nat)
    requires i <= j <= |s|
    ensures multiset(s[i..j]) <= multiset(s)
  {
    assert s == s[..i] + s[i..j] + s[j..];
  }

  /** The window of any arrangement of the first `offset + limit` rows. */
  lemma WindowOfSome<T>(rows: seq<T>, received: seq<T>, offset: nat, limit: nat)
    requires multiset(received) == multiset(rows[..Min(|rows|, limit + offset)])
    ensures |Window(received, offset, limit)| == |Window(rows, offset, limit)|
    ensures multiset(Window(received, offset, limit)) <= multiset(rows)
  {
    var first := rows[..Min(|rows|, limit + offset)];
    assert |multiset(received)| == |received| && |multiset(first)| == |first|;
    PartOf(rows, 0, |first|);
    if offset < |received| {
      PartOf(received, offset, Min(|received|, offset + limit));
    }
  }

  /**
   The same for streams: if what the second receives is what the first passes on, in any order and grouping, the second
   passes on the window of it.
   */
  lemma ParallelStreams<T>(rs: seq<Call<T>>, ms: seq<Call<T>>, offset: nat, limit: nat)
    requires Stream(rs, Counter(0, limit + offset)) && Harmless(rs) && Spent(rs) == 0
    requires Stream(ms, Counter(offset, limit)) && RightStream(ms, Counter(offset, limit))
    requires PassedOn(rs).Some? && multiset(AllRows(ms)) == multiset(PassedOn(rs).value)
    ensures var rows, result := AllRows(rs), PassedOn(ms);
      && result == Some(Window(AllRows(ms), offset, limit))
      && multiset(AllRows(ms)) == multiset(rows[..Min(|rows|, limit + offset)])
      && |result.value| == |Window(rows, offset, limit)| && multiset(result.value) <= multiset(rows)
  {
    StreamExactly(rs, Counter(0, limit + offset));
    StreamExactly(ms, Counter(offset, limit));
    WindowOfSome(AllRows(rs), AllRows(ms), offset, limit);
  }

  /** The merging operator receives the rows that the tasklets' operator passed on, in any order and grouping. */
  ghost predicate Receives<T>(calls: seq<seq<seq<T>>>, n: nat, merged: seq<seq<seq<T>>>)
    requires Small(calls)
  {
    var passed := Passed(calls, Counter(0, n));
    passed.Some? && multiset(Concat(Concat(merged))) == multiset(passed.value)
  }

  lemma OperatorStream<T>(calls: seq<seq<seq<T>>>, c: Counter)
    requires Small(calls)
    ensures Stream(Calls(calls, c), c) && AllRows(Calls(calls, c)) == Concat(Concat(calls))
    ensures Skip(c) == 0 ==> Harmless(Calls(calls, c)) && Spent(Calls(calls, c)) == 0
  {
    CallsStream(calls, c);
    CallsRows(calls, c);
    if Skip(c) == 0 {
      NothingSpent(calls, c);
    }
  }

  /**
   The plan for several tasklets: the tasklets share one operator that lets the first `limit + offset` rows
   through, and their rows reach the merging operator in any order and in any grouping. When the merging calls
   are right, the result is the requested window of what arrives, and that is the first `limit + offset` rows that the
   tasklets' operator saw. So it has as many rows as the query asks for and the input holds.
   */
  lemma ParallelLimit<T>(calls: seq<seq<seq<T>>>, merged: seq<seq<seq<T>>>, offset: nat, limit: nat)
    requires Small(calls) && Small(merged)
    requires Receives(calls, limit + offset, merged) && StreamRight(merged, Counter(offset, limit))
    ensures var rows, result := Concat(Concat(calls)), Passed(merged, Counter(offset, limit));
      && result == Some(Window(Concat(Concat(merged)), offset, limit))
      && multiset(Concat(Concat(merged))) == multiset(rows[..Min(|rows|, limit + offset)])
      && |result.value| == |Window(rows, offset, limit)| && multiset(result.value) <= multiset(rows)
  {
    OperatorStream(calls, Counter(0, limit + offset));
    OperatorStream(merged, Counter(offset, limit));
    ParallelStreams(Calls(calls, Counter(0, limit + offset)), Calls(merged, Counter(offset, limit)), offset, limit);
  }
}
