/**
 ORDER BY ... LIMIT ... OFFSET from end to end: the planner's plan, one run of Top for every input of a tasklet, and
 MergeTop over the blocks they send, one block at a time and in any order.
 */
module ParallelTop {
  import opened Integers
  import opened Wrappers
  import opened Ranking
  import opened DataBlocks
  import opened MergeTop
  import opened TopSolver
  import opened TopPlan
  import opened SerialTop

  // ----- sorted arrangements -----

  lemma {:induction false} Insert<T(!new)>(le: (T, T) -> bool, s: seq<T>, x: T) returns (r: seq<T>)
    requires TotalPreorder(le) && Sorted(le, s)
    ensures Sorted(le, r) && multiset(r) == multiset(s) + multiset{x}
    ensures forall y | le(y, x) && (s != [] ==> le(y, s[0])) :: le(y, r[0])
  {
    if s == [] || le(x, s[0]) {
      r := [x] + s;
    } else {
      assert s == [s[0]] + s[1..];
      var t := Insert(le, s[1..], x);
      assert le(s[0], t[0]);
      r := [s[0]] + t;
    }
  }

  lemma {:induction false} Arrange<T(!new)>(le: (T, T) -> bool, s: seq<T>) returns (r: seq<T>)
    requires TotalPreorder(le)
    ensures Sorted(le, r) && multiset(r) == multiset(s)
  {
    if s == [] {
      r := [];
    } else {
      var t := Arrange(le, s[1..]);
      r := Insert(le, t, s[0]);
      assert s == [s[0]] + s[1..];
    }
  }

  /** The output is the requested window of a sorted arrangement of all rows, in packed blocks. */
  ghost predicate TopAnswer<T(!new)>(le: (T, T) -> bool, rows: seq<T>, limit: nat, offset: nat, output: seq<seq<T>>) {
    Packed(output, Concat(output)) && TopRows(le, rows, limit, offset, Concat(output))
  }

  lemma SelectionFirst<T(!new)>(le: (T, T) -> bool, out: seq<T>, rest: seq<T>, k: nat) returns (all: seq<T>)
    requires TotalPreorder(le) && TopOf(le, out, rest, k)
    ensures Sorted(le, all) && multiset(all) == multiset(out) + multiset(rest)
    ensures out <= all && (|out| == k || all == out)
  {
    var r := Arrange(le, rest);
    all := out + r;
    forall i, j | 0 <= i < |out| && 0 <= j < |r| ensures le(out[i], r[j]) {
      assert r[j] in multiset(rest);
      var q :| 0 <= q < |rest| && rest[q] == r[j];
      assert le(out[i], rest[q]);
    }
    if rest == [] {
      assert |multiset(r)| == |r|;
    }
  }

  lemma SelectionAnswers<T(!new)>(le: (T, T) -> bool, out: seq<T>, rest: seq<T>, rows: seq<T>, limit: nat, offset: nat,
                                  output: seq<seq<T>>)
    requires TotalPreorder(le) && TopOf(le, out, rest, limit + offset)
    requires multiset(out) + multiset(rest) == multiset(rows) && Packed(output, Skip(out, offset))
    ensures TopAnswer(le, rows, limit, offset, output)
  {
    PackedRows(output, Skip(out, offset));
    var all := SelectionFirst(le, out, rest, limit + offset);
    WindowOfFirst(out, all, limit, offset);
  }

  lemma WindowOfFirst<T>(out: seq<T>, all: seq<T>, limit: nat, offset: nat)
    requires out <= all && |out| <= limit + offset && (|out| == limit + offset || all == out)
    ensures Skip(out, offset) == Window(all, offset, limit)
  {
    if offset < |out| {
      assert all[offset..|out|] == out[offset..];
    }
  }

  /** Two answers to the same query have the same sort keys, row by row. */
  lemma AnswersTie<T(!new)>(le: (T, T) -> bool, rows: seq<T>, limit: nat, offset: nat, a: seq<seq<T>>, b: seq<seq<T>>)
    requires TotalPreorder(le) && TopAnswer(le, rows, limit, offset, a) && TopAnswer(le, rows, limit, offset, b)
    ensures SameKeys(le, Concat(a), Concat(b))
  {
    var x :| Sorted(le, x) && multiset(x) == multiset(rows) && Concat(a) == Window(x, offset, limit);
    var y :| Sorted(le, y) && multiset(y) == multiset(rows) && Concat(b) == Window(y, offset, limit);
    ArrangementsTie(le, x, y);
    WindowsTie(le, x, y, limit, offset);
  }

  lemma ArrangementsTie<T(!new)>(le: (T, T) -> bool, x: seq<T>, y: seq<T>)
    requires TotalPreorder(le) && Sorted(le, x) && Sorted(le, y) && multiset(x) == multiset(y)
    ensures SameKeys(le, x, y)
  {
    assert x + [] == x;
    TopIsPrefix(le, x, [], |x|, y);
    assert |multiset(x)| == |x| && |multiset(y)| == |y|;
    assert y[..|x|] == y;
  }

  lemma WindowsTie<T>(le: (T, T) -> bool, x: seq<T>, y: seq<T>, limit: nat, offset: nat)
    requires SameKeys(le, x, y)
    ensures SameKeys(le, Window(x, offset, limit), Window(y, offset, limit))
  {
    var a, b := Window(x, offset, limit), Window(y, offset, limit);
    forall i | 0 <= i < |a| ensures le(a[i], b[i]) && le(b[i], a[i]) {
      assert a[i] == x[offset + i] && b[i] == y[offset + i];
    }
  }

  // ----- the tasklets -----

  ghost predicate Sent<T>(le: (T, T) -> bool, blocks: seq<seq<T>>, k: nat) {
    Batches(le, blocks, k) && forall i | 0 <= i < |blocks| :: |blocks[i]| <= CAPACITY
  }

  lemma SentBlocks<T>(le: (T, T) -> bool, blocks: seq<seq<T>>, rows: seq<T>, k: nat)
    requires Packed(blocks, rows) && Sorted(le, rows) && |rows| <= k
    ensures Sent(le, blocks, k)
  {
    forall i | 0 <= i < |blocks|
      ensures Sorted(le, blocks[i]) && 0 < |blocks[i]| <= k && |blocks[i]| <= CAPACITY
    {
      assert blocks[i] == Chunk(rows, i);
    }
  }

  lemma SentConcat<T>(le: (T, T) -> bool, a: seq<seq<T>>, b: seq<seq<T>>, k: nat)
    requires Sent(le, a, k) && Sent(le, b, k)
    ensures Sent(le, a + b, k)
  {
  }

  /** What the tasklets have sent and dropped is what they were given. */
  ghost predicate Shared<T>(le: (T, T) -> bool, rows: seq<T>, k: nat, sent: seq<seq<T>>, parts: seq<Part<T>>) {
    && Parts(le, parts, k) && Sent(le, sent, k)
    && multiset(Concat(sent)) == AllSent(parts)
    && multiset(rows) == AllSent(parts) + multiset(AllDropped(parts))
  }

  lemma OneMorePart<T>(le: (T, T) -> bool, rows: seq<T>, k: nat, sent: seq<seq<T>>, parts: seq<Part<T>>,
                       more: seq<T>, output: seq<seq<T>>, part: Part<T>)
    requires Shared(le, rows, k, sent, parts)
    requires TopOf(le, part.out, part.dropped, k) && Packed(output, part.out)
    requires multiset(part.out) + multiset(part.dropped) == multiset(more)
    ensures Shared(le, rows + more, k, sent + output, parts + [part])
  {
    PackedRows(output, part.out);
    ConcatAppend(sent, output);
    CountsOneMore(parts, part);
    SentBlocks(le, output, part.out, k);
    SentConcat(le, sent, output, k);
    assert multiset(rows + more) == multiset(rows) + multiset(more);
  }

  lemma CountsOneMore<T>(parts: seq<Part<T>>, part: Part<T>)
    ensures AllSent(parts + [part]) == AllSent(parts) + multiset(part.out)
    ensures multiset(AllDropped(parts + [part])) == multiset(AllDropped(parts)) + multiset(part.dropped)
  {
    assert (parts + [part])[..|parts|] == parts;
  }

  lemma OneMoreCall<T>(calls: seq<seq<seq<T>>>, i: nat)
    requires i < |calls|
    ensures Concat(Concat(calls[..i + 1])) == Concat(Concat(calls[..i])) + Concat(calls[i])
  {
    assert calls[..i + 1] == calls[..i] + [calls[i]];
    ConcatAppend(calls[..i], [calls[i]]);
    ConcatOne(calls[i]);
    ConcatAppend(Concat(calls[..i]), calls[i]);
  }

  /** Top on one input of a tasklet. */
  method TopOfCall<T(0, !new)>(blocks: seq<seq<T>>, k: nat, preferLeft: (T, T) -> bool)
    returns (output: seq<seq<T>>, ghost part: Part<T>)
    requires 1 <= k && TotalPreorder(preferLeft)
    ensures TopOf(preferLeft, part.out, part.dropped, k) && Packed(output, part.out)
    ensures multiset(part.out) + multiset(part.dropped) == multiset(Concat(blocks))
  {
    output := ExecuteTop(blocks, k, 0, preferLeft);
    ghost var top, rest :|
      && TopOf(preferLeft, top, rest, k)
      && multiset(top) + multiset(rest) == multiset(Concat(blocks))
      && Packed(output, Skip(top, 0));
    assert Skip(top, 0) == top;
    part := Part(top, rest);
  }

  /** The rows of every input. */
  ghost function Inputs<T>(calls: seq<seq<seq<T>>>): (r: seq<seq<T>>)
    ensures |r| == |calls|
  {
    seq(|calls|, i requires 0 <= i < |calls| => Concat(calls[i]))
  }

  lemma {:induction false} InputRows<T>(calls: seq<seq<seq<T>>>)
    ensures Concat(Inputs(calls)) == Concat(Concat(calls))
    decreases |calls|
  {
    if calls != [] {
      var n := |calls| - 1;
      InputRows(calls[..n]);
      OneMoreCall(calls, n);
      assert calls[..n + 1] == calls && Inputs(calls)[..n] == Inputs(calls[..n]);
    }
  }

  /** What comes out: the first rows of every input, one after the other. */
  ghost predicate OneByOne<T(!new)>(le: (T, T) -> bool, inputs: seq<seq<T>>, k: nat, result: seq<T>) {
    exists outs :: EachTop(le, inputs, outs, k) && result == Concat(outs)
  }

  lemma OneMoreOutput<T(!new)>(le: (T, T) -> bool, inputs: seq<seq<T>>, k: nat, result: seq<T>, rows: seq<T>,
                               out: seq<T>)
    requires OneByOne(le, inputs, k, result) && IsTop(le, rows, out, k)
    ensures OneByOne(le, inputs + [rows], k, result + out)
  {
    var outs :| EachTop(le, inputs, outs, k) && result == Concat(outs);
    ConcatAppend(outs, [out]);
    ConcatOne(out);
    EachTopOneMore(le, inputs, outs, k, rows, out);
  }

  lemma EachTopOneMore<T(!new)>(le: (T, T) -> bool, inputs: seq<seq<T>>, outs: seq<seq<T>>, k: nat, rows: seq<T>,
                                out: seq<T>)
    requires EachTop(le, inputs, outs, k) && IsTop(le, rows, out, k)
    ensures EachTop(le, inputs + [rows], outs + [out], k)
  {
  }

  /** After Top has run on these inputs. */
  ghost predicate Ran<T(!new)>(le: (T, T) -> bool, inputs: seq<seq<T>>, k: nat, sent: seq<seq<T>>,
                               parts: seq<Part<T>>) {
    && Shared(le, Concat(inputs), k, sent, parts)
    && OneByOne(le, inputs, k, Concat(sent))
    && (|inputs| <= 1 ==> Packed(sent, Concat(sent)))
  }

  lemma RanNone<T(!new)>(le: (T, T) -> bool, k: nat)
    ensures Ran<T>(le, [], k, [], [])
  {
    assert EachTop<T>(le, [], [], k) && Concat<T>([]) == [];
  }

  lemma RanOneMore<T(!new)>(le: (T, T) -> bool, inputs: seq<seq<T>>, k: nat, sent: seq<seq<T>>, parts: seq<Part<T>>,
                            rows: seq<T>, output: seq<seq<T>>, part: Part<T>)
    requires Ran(le, inputs, k, sent, parts) && (inputs == [] ==> sent == [])
    requires TopOf(le, part.out, part.dropped, k) && Packed(output, part.out)
    requires multiset(part.out) + multiset(part.dropped) == multiset(rows)
    ensures Ran(le, inputs + [rows], k, sent + output, parts + [part])
  {
    OneMorePart(le, Concat(inputs), k, sent, parts, rows, output, part);
    PackedRows(output, part.out);
    ConcatAppend(sent, output);
    OneMoreOutput(le, inputs, k, Concat(sent), rows, part.out);
    ConcatAppend(inputs, [rows]);
    ConcatOne(rows);
    assert inputs == [] ==> sent + output == output;
  }

  method RunNextTop<T(0, !new)>(blocks: seq<seq<T>>, k: nat, preferLeft: (T, T) -> bool, sent: seq<seq<T>>,
                                ghost inputs: seq<seq<T>>, ghost parts: seq<Part<T>>)
    returns (sent': seq<seq<T>>, ghost parts': seq<Part<T>>)
    requires 1 <= k && TotalPreorder(preferLeft)
    requires Ran(preferLeft, inputs, k, sent, parts) && (inputs == [] ==> sent == [])
    ensures Ran(preferLeft, inputs + [Concat(blocks)], k, sent', parts')
  {
    var output, part := TopOfCall(blocks, k, preferLeft);
    RanOneMore(preferLeft, inputs, k, sent, parts, Concat(blocks), output, part);
    sent', parts' := sent + output, parts + [part];
  }

  lemma InputsOneMore<T>(calls: seq<seq<seq<T>>>)
    requires calls != []
    ensures var n := |calls| - 1; Inputs(calls) == Inputs(calls[..n]) + [Concat(calls[n])]
  {
  }

  /** Every input of every tasklet goes through Top; the blocks that come out are sent on. */
  method RunTops<T(0, !new)>(calls: seq<seq<seq<T>>>, k: nat, preferLeft: (T, T) -> bool)
    returns (sent: seq<seq<T>>, ghost parts: seq<Part<T>>)
    requires 1 <= k && TotalPreorder(preferLeft)
    ensures Ran(preferLeft, Inputs(calls), k, sent, parts)
    ensures calls == [] ==> sent == []
    decreases |calls|
  {
    if calls == [] {
      RanNone(preferLeft, k);
      return [], [];
    }
    var n := |calls| - 1;
    var before, ran := RunTops(calls[..n], k, preferLeft);
    InputsOneMore(calls);
    sent, parts := RunNextTop(calls[n], k, preferLeft, before, Inputs(calls[..n]), ran);
  }

  // ----- the merge -----

  lemma OneBlock<T>(block: seq<T>)
    requires 0 < |block| <= CAPACITY
    ensures Packed([block], block)
  {
    assert Chunk(block, 0) == block;
  }

  lemma CombineLength<T>(le: (T, T) -> bool, a: seq<T>, b: seq<T>, k: nat)
    requires |a| <= k && 0 < |b| <= k
    ensures 0 < |Combine(le, a, b, k)| <= k
  {
  }

  lemma TakeBlock<T>(waiting: seq<seq<T>>, i: nat)
    requires i < |waiting|
    ensures multiset(Concat(waiting)) == multiset(waiting[i]) + multiset(Concat(waiting[..i] + waiting[i + 1..]))
  {
    ConcatAround(waiting, i);
    ConcatAppend(waiting[..i], waiting[i + 1..]);
  }

  /** The blocks received so far and the blocks still on their way are the blocks sent. */
  ghost predicate Underway<T>(le: (T, T) -> bool, sent: seq<seq<T>>, batches: seq<seq<T>>, waiting: seq<seq<T>>,
                              k: nat) {
    && Sent(le, waiting, k) && Batches(le, batches, k)
    && multiset(Concat(batches)) + multiset(Concat(waiting)) == multiset(Concat(sent))
    && |Received(le, batches, k)| <= k
  }

  lemma MovedBlock<T>(batches: seq<seq<T>>, waiting: seq<seq<T>>, i: nat)
    requires i < |waiting|
    ensures multiset(Concat(batches + [waiting[i]])) + multiset(Concat(waiting[..i] + waiting[i + 1..]))
         == multiset(Concat(batches)) + multiset(Concat(waiting))
  {
    TakeBlock(waiting, i);
    ConcatAppend(batches, [waiting[i]]);
    ConcatOne(waiting[i]);
  }

  lemma SentLeft<T>(le: (T, T) -> bool, batches: seq<seq<T>>, waiting: seq<seq<T>>, k: nat, i: nat)
    requires Sent(le, waiting, k) && Batches(le, batches, k) && i < |waiting|
    ensures Sent(le, waiting[..i] + waiting[i + 1..], k) && Batches(le, batches + [waiting[i]], k)
    ensures Sorted(le, waiting[i]) && 0 < |waiting[i]| <= k && |waiting[i]| <= CAPACITY
  {
    assert Sorted(le, waiting[i]) && 0 < |waiting[i]| <= k;
    var rest := waiting[..i] + waiting[i + 1..];
    forall j: nat | j < |rest| ensures rest[j] == if j < i then waiting[j] else waiting[j + 1] {
    }
  }

  lemma ReceivedOneMore<T>(le: (T, T) -> bool, batches: seq<seq<T>>, block: seq<T>, k: nat)
    ensures Received(le, batches + [block], k) == Combine(le, Received(le, batches, k), block, k)
  {
    assert (batches + [block])[..|batches|] == batches;
  }

  lemma OneMoreBlock<T>(le: (T, T) -> bool, sent: seq<seq<T>>, batches: seq<seq<T>>, waiting: seq<seq<T>>, k: nat,
                        i: nat)
    requires Underway(le, sent, batches, waiting, k) && i < |waiting|
    ensures Packed([waiting[i]], waiting[i]) && 0 < |waiting[i]| <= k
    ensures Underway(le, sent, batches + [waiting[i]], waiting[..i] + waiting[i + 1..], k)
    ensures Received(le, batches + [waiting[i]], k) == Combine(le, Received(le, batches, k), waiting[i], k)
  {
    SentLeft(le, batches, waiting, k, i);
    OneBlock(waiting[i]);
    ReceivedOneMore(le, batches, waiting[i], k);
    CombineLength(le, Received(le, batches, k), waiting[i], k);
    MovedBlock(batches, waiting, i);
  }

  /** MergeTop receives the blocks one at a time, in any order. */
  method MergeAll<T(!new)>(sent: seq<seq<T>>, limit: nat, offset: nat, preferLeft: (T, T) -> bool)
    returns (output: seq<seq<T>>, ghost batches: seq<seq<T>>)
    requires Sent(preferLeft, sent, limit)
    ensures Batches(preferLeft, batches, limit) && multiset(Concat(batches)) == multiset(Concat(sent))
    ensures Packed(output, Skip(Received(preferLeft, batches, limit), offset))
  {
    var state := new MergeTopState(preferLeft, limit, offset);
    var waiting := sent;
    batches := [];
    while waiting != []
      invariant state.Valid() && state.le == preferLeft && state.limit == limit && state.offset == offset
      invariant state.rows == Received(preferLeft, batches, limit)
      invariant Underway(preferLeft, sent, batches, waiting, limit)
      decreases |waiting|
    {
      var i :| 0 <= i < |waiting|;
      OneMoreBlock(preferLeft, sent, batches, waiting, limit, i);
      var ok := state.Execute([waiting[i]], waiting[i]);
      batches, waiting := batches + [waiting[i]], waiting[..i] + waiting[i + 1..];
    }
    output := state.Finish();
  }

  // ----- a single tasklet -----

  lemma SerialExactly<T(!new)>(le: (T, T) -> bool, inputs: seq<seq<T>>, k: nat, result: seq<T>)
    requires TotalPreorder(le) && k > 0 && OneByOne(le, inputs, k, result)
    ensures TopRows(le, Concat(inputs), k, 0, result) <==> SerialCondition(le, inputs, k)
  {
    var outs :| EachTop(le, inputs, outs, k) && result == Concat(outs);
    if TopRows(le, Concat(inputs), k, 0, result) {
      AnswersInOrder(le, inputs, outs, k);
    } else if AtMostOneInput(inputs) {
      OnlyOne(le, inputs, outs, k);
      TopAnswers(le, Concat(inputs), result, k);
    } else if SerialCondition(le, inputs, k) {
      InOrderAnswers(le, inputs, outs, k);
    }
  }

  lemma TopAnswers<T(!new)>(le: (T, T) -> bool, rows: seq<T>, out: seq<T>, k: nat)
    requires TotalPreorder(le) && IsTop(le, rows, out, k)
    ensures TopRows(le, rows, k, 0, out)
  {
    var rest :| TopOf(le, out, rest, k) && multiset(out) + multiset(rest) == multiset(rows);
    var all := SelectionFirst(le, out, rest, k);
    WindowOfFirst(out, all, k, 0);
    assert Skip(out, 0) == out;
  }

  /** Two inputs with one row each, the later one smaller: with limit 1, both rows come out. */
  lemma TwoCallsTwoRows(result: seq<int>)
    requires OneByOne((x: int, y: int) => x <= y, [[2], [1]], 1, result)
    ensures result == [2, 1] && !TopRows((x: int, y: int) => x <= y, [2, 1], 1, 0, result)
  {
    var le := (x: int, y: int) => x <= y;
    var outs :| EachTop(le, [[2], [1]], outs, 1) && result == Concat(outs);
    TopLength(le, [2], outs[0], 1);
    TopLength(le, [1], outs[1], 1);
    OnlyRow(outs[0], 2);
    OnlyRow(outs[1], 1);
    assert outs == [[2]] + [[1]];
    ConcatAppend([[2]], [[1]]);
    ConcatOne([2]);
    ConcatOne([1]);
  }

  lemma OnlyRow(s: seq<int>, x: int)
    requires multiset(s) == multiset([x])
    ensures s == [x]
  {
    assert |multiset(s)| == 1 && s[0] in multiset(s);
  }

  /**
   One tasklet: Top runs on every input. With an offset, it refuses all inputs but the last one; without, the
   outputs follow each other.
   */
  method RunSerial<T(0, !new)>(calls: seq<seq<seq<T>>>, k: nat, skipped: nat, ghost limit: nat,
                               preferLeft: (T, T) -> bool)
    returns (output: Option<seq<seq<T>>>)
    requires 1 <= limit && k == limit + skipped && TotalPreorder(preferLeft)
    ensures output.Some? <==> skipped == 0 || |calls| <= 1
    ensures output.Some? && |calls| <= 1 ==> TopAnswer(preferLeft, Concat(Concat(calls)), limit, skipped, output.value)
    ensures output.Some? && skipped == 0 ==> OneByOne(preferLeft, Inputs(calls), limit, Concat(output.value))
  {
    if skipped != 0 && |calls| > 1 {
      return None;
    }
    if skipped == 0 {
      var sent, parts := RunTops(calls, k, preferLeft);
      SerialOne(preferLeft, calls, limit, sent);
      return Some(sent);
    }
    var blocks := if calls == [] then [] else calls[0];
    OneCallRows(calls, blocks);
    var result := ExecuteTop(blocks, k, skipped, preferLeft);
    ghost var top, rest :|
      && TopOf(preferLeft, top, rest, k)
      && multiset(top) + multiset(rest) == multiset(Concat(blocks))
      && Packed(result, Skip(top, skipped));
    SelectionAnswers(preferLeft, top, rest, Concat(Concat(calls)), limit, skipped, result);
    return Some(result);
  }

  lemma OneCallRows<T>(calls: seq<seq<seq<T>>>, blocks: seq<seq<T>>)
    requires |calls| <= 1 && blocks == if calls == [] then [] else calls[0]
    ensures Concat(Concat(calls)) == Concat(blocks)
  {
    if calls != [] {
      assert calls == [blocks];
      ConcatOne(blocks);
    }
  }

  lemma SerialOne<T(!new)>(le: (T, T) -> bool, calls: seq<seq<seq<T>>>, k: nat, sent: seq<seq<T>>)
    requires TotalPreorder(le) && k > 0 && OneByOne(le, Inputs(calls), k, Concat(sent))
    requires |calls| <= 1 ==> Packed(sent, Concat(sent))
    ensures |calls| <= 1 ==> TopAnswer(le, Concat(Concat(calls)), k, 0, sent)
  {
    InputRows(calls);
    SerialExactly(le, Inputs(calls), k, Concat(sent));
  }

  datatype TopError = NoPlan(error: PlanError) | InputNotComplete

  /** The window that the query asks for is not empty and ends below the largest u32. */
  predicate Accepted(limit: int, skipped: int) {
    0 <= skipped && 1 <= limit && skipped + limit < U32_MAX
  }

  /**
   The whole query: a plan is built exactly for a window that is not empty and ends below the largest u32. With several
   tasklets, whatever they are given and whatever order their blocks arrive in, the output is the requested
   window of a sorted arrangement of all rows. A single tasklet with several inputs gives that window exactly
   under a condition on the inputs, and refuses them if there is an offset.
   */
  method RunTop<T(0, !new)>(calls: seq<seq<seq<T>>>, limit: int, offset: Option<int>, taskletCount: nat,
                            preferLeft: (T, T) -> bool)
    returns (output: Result<seq<seq<T>>, TopError>)
    requires IsI64(limit) && (offset.Some? ==> IsI64(offset.value)) && TotalPreorder(preferLeft)
    ensures var skipped := if offset.Some? then offset.value else 0;
      && (output.Success? <==> Accepted(limit, skipped) && (taskletCount <= 1 && skipped != 0 ==> |calls| <= 1))
      && (output.Success? && (taskletCount > 1 || |calls| <= 1) ==>
            TopAnswer(preferLeft, Concat(Concat(calls)), limit, skipped, output.value))
      && (output.Success? && taskletCount <= 1 && skipped == 0 ==>
            && OneByOne(preferLeft, Inputs(calls), limit, Concat(output.value))
            && (TopRows(preferLeft, Concat(Concat(calls)), limit, 0, Concat(output.value)) <==>
                  SerialCondition(preferLeft, Inputs(calls), limit)))
  {
    var plan := BuildTop(limit, offset, taskletCount);
    if plan.Failure? {
      return Failure(NoPlan(plan.error));
    }
    match plan.value {
      case OnlyTop(k, skipped) =>
        var result := RunSerial(calls, k, skipped, limit, preferLeft);
        if result.None? {
          return Failure(InputNotComplete);
        }
        if skipped == 0 {
          InputRows(calls);
          SerialExactly(preferLeft, Inputs(calls), limit, Concat(result.value));
        }
        return Success(result.value);
      case TopThenMerge(childLimit, k, skipped) =>
        var result := RunMerged(calls, childLimit, k, skipped, limit, preferLeft);
        return Success(result);
    }
  }

  method RunMerged<T(0, !new)>(calls: seq<seq<seq<T>>>, childLimit: nat, k: nat, skipped: nat, ghost limit: nat,
                               preferLeft: (T, T) -> bool)
    returns (result: seq<seq<T>>)
    requires 1 <= k == childLimit == limit + skipped && TotalPreorder(preferLeft)
    ensures TopAnswer(preferLeft, Concat(Concat(calls)), limit, skipped, result)
  {
    var sent, parts := RunTops(calls, childLimit, preferLeft);
    InputRows(calls);
    var merged, batches := MergeAll(sent, k, skipped, preferLeft);
    ghost var rest := TaskletsAreTop(preferLeft, parts, batches, k);
    SelectionAnswers(preferLeft, Received(preferLeft, batches, k), rest, Concat(Concat(calls)), limit, skipped, merged);
    result := merged;
  }
}
