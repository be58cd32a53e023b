# Verified models of infinity's query core

Infinity is a database written in C++. This project models its most intricate pieces in Dafny and proves
what they promise: the multi-producer queue of the benchmark tools, the Top and Limit operators with the plans that run
them on several tasklets, the fragment builder, the queue between fragments, the CRC-32, the socket reader, the
splitting of conditions, the string and tensor columns from storage to the client, the late loading of columns, and the
life of a statement.

`dafny verify dfyconfig.toml` checks everything.

## How the files belong together

| files | what they model |
|---|---|
| `MpscQueue`, `MpscInvariant`, `MpscProducerProof`, `MpscConsumerProof`, `MpscTheorems` | the queue of the benchmark tools as a transition system, its invariant, and the theorems over all runs |
| `MpscProgress`, `MpscWaitFree`, `MpscDequeue`, `MpscAnswer` | that `enqueue` is wait-free, that `dequeue` returns, and what it answers when the producers have finished |
| `MpscRuns`, `MpscLoss`, `MpscStuck` | runs in which an element is lost, and in which one is never found |
| `Ranking`, `DataBlocks`, `TopSolver`, `MergeTop`, `TopPlan`, `SerialTop`, `ParallelTop` | ORDER BY ... LIMIT: the bounded heap, the in-place merge, the parallel plan, and the whole query |
| `Limit`, `LimitPlan`, `LimitRace` | LIMIT without ORDER BY: the operator, the parallel plan, and its counter without synchronization |
| `PhysicalPlan`, `FragmentBuilder`, `FragmentTheorems` | cutting a plan into pipelined fragments |
| `QueueSource` | when a fragment has received everything from its children |
| `Words`, `Crc` | the table-driven CRC against bit-by-bit division |
| `BufferReader` | reading integers and strings through a ring buffer |
| `ExpressionTransformer` | splitting AND/OR trees and composing them again |
| `FixHeap`, `ColumnEncoders`, `Columns`, `TensorArrays` | storing strings, tensors and tensor arrays, sending them, parsing them |
| `InputLoad` | inserting and filling columns by row id |
| `QueryContext` | transactions, counters and profile phases of statements |
| `Wrappers`, `Integers`, `Sequences` | shared types and facts |

Objects that the source updates in place are classes, loops are loops, and every method is proved against a
specification function whose own properties are proved as lemmas. Errors of the source (exceptions, unrecoverable errors)
are values: `Option`, `Result`, a `fault` or `crashed` flag.

## Where the code does not do what one would expect

Each point is modelled as the code is, with a concrete case and the exact condition under which the code is right.

- `dequeue` can move the head of a buffer past a cell whose element was not delivered. `MpscLoss.ElementLost` is a run
  in which this happens, `MpscTheorems.LostForever` says that the element is then never delivered, and
  `MpscTheorems.NothingLostExactly` says exactly which steps do this.
- `dequeue` can answer that there is nothing, however often it is called, although every `enqueue` has returned and an
  element waits: an `enqueue` that linked a buffer stores it into `tail_of_queue_` late, and so throws the tail back to a
  buffer that the consumer has emptied. `MpscStuck.ElementStuck` is such a run, and `MpscAnswer.DequeueAnswers` says
  exactly when it happens and what `dequeue` delivers otherwise.
- A single tasklet that calls Top several times answers every input for itself, so with limit 1 two rows can come out
  (`ParallelTop.TwoCallsTwoRows`). `ParallelTop.SerialExactly` gives the condition on the inputs.
- The tasklets under a MergeLimit share a counter without synchronization, which can let more rows through than its limit
  (`LimitRace.TooManyPass`). It never lets too few through, so the result is still right (`LimitRace.RacingLimit`).
- A fragment that streams and ends with two or more blocks reports its last task once per block
  (`QueueSource.TwoLastBlocks`). `QueueSource.TaskCompletesOnce` gives the condition.
- `PhysicalLimit` passes on a row that should be skipped when OFFSET reaches beyond a call's rows
  (`Limit.SkippedRowPassedOn`), and copies past the end of a block when the wanted rows cross one
  (`Limit.CopiedPastEnd`). `Limit.LimitExactly` gives the condition for a call, `Limit.StreamIsWindow` for a whole
  stream of calls.
- The fragment builder ignores the right child of unary operators and the further children of a Fusion above
  a Fusion (`FragmentTheorems.IgnoredChild`). `FragmentTheorems.FlattenIsPreorder` gives the condition. The Filter of
  the concrete case cannot come from the planner, which refuses a filter with a right child itself
  (src/executor/physical_planner.cpp:835-839).
- Late loading fills the wrong columns, or fails, when the indices do not increase. The optimizer does not sort them
  (`InputLoad.LoadedOutOfOrder` loads at 1 and then at 0). `InputLoad.LoadedExactly` gives the condition.
- A string of 8 MB and more, and a tensor of 65536 embeddings and more that fits a chunk, are stored without an error,
  but come back cut (`Columns.LongStringLost`, `Columns.LongTensorLost`), and so is an array of more than 65536 tensors
  (`TensorArrays.LongArrayLost`). `Columns.KeptExactly`, `Columns.KeptTensorExactly` and
  `TensorArrays.KeptArrayExactly` give the conditions.
- The session counts a rolled back transaction as committed (`QueryContext.RollbackCountedAsCommit`), and a statement
  that ends with a parser exception leaves its transaction to the next statement
  (`QueryContext.FailedStatementCommitted`). `QueryContext.QueryStatements` gives both conditions.

## Model

| member | source | states |
|---|---|---|
| `MpscTheorems.RunInv` | benchmark/common/mpsc_queue.h:117-306 | the invariant holds in every state of every run, for any number of producers and every interleaving of their steps with the consumer's; in particular no step reads through NULL or outside a buffer |
| `MpscTheorems.AlwaysOneChain` | benchmark/common/mpsc_queue.h:243-306 | at all times the linked buffers form one chain with consecutive positions and matching `next_` and `prev_`, and `tail_of_queue_` and the head buffer are in it |
| `MpscTheorems.TicketOwnsCell` | benchmark/common/mpsc_queue.h:246-268 | whenever an `enqueue` is about to store, it stands at cell `ticket mod N` of buffer `ticket div N + 1`, which exists, is still empty and at which no other producer stands |
| `MpscTheorems.PublishedWhenReleased` | benchmark/common/mpsc_queue.h:263-280 | once no producer works on a ticket that was given out, its cell is set and holds the element of that ticket |
| `MpscTheorems.CellsOnlyAdvance` | benchmark/common/mpsc_queue.h:117-306 | in every step of every run cell states only go from empty to set to handled, a `next_` once set never changes, heads only grow, and the chain, the issued tickets and the deliveries are only extended |
| `MpscTheorems.DeliveredOnce` | benchmark/common/mpsc_queue.h:117-241 | whatever mix of in-order and out-of-order dequeues, no cell is delivered twice, and every delivered element is the one its ticket's owner enqueued |
| `MpscTheorems.FirstInFirstOut` | benchmark/common/mpsc_queue.h:125-239 | in every run in which no dequeue finds its head cell empty, the deliveries are exactly tickets 0, 1, 2, ... without gap or repeat, across buffers |
| `MpscTheorems.NothingLostExactly` | benchmark/common/mpsc_queue.h:141-222 | an element is lost (its cell is passed by a head and was never delivered) if and only if some step stored 2 into a cell that the scan chose in a second look, right above the head of its buffer, while the head cell was not handled |
| `MpscTheorems.LostForever` | benchmark/common/mpsc_queue.h:117-241 | an element that is lost in some state of a run is lost in every later state: it is never delivered |
| `MpscLoss.ElementLost` | benchmark/common/mpsc_queue.h:141-222 | the failing case: a run of 1623 producers and the consumer that loses ticket N, the first of the second buffer |
| `MpscWaitFree.EnqueueWaitFree` | benchmark/common/mpsc_queue.h:243-306 | in every run, whatever the other threads do, an `enqueue` makes at most 8h² + 16h + c + 11 steps of its own, where h is the number of its ticket's buffer and c the number of buffers linked by then, although other threads can throw `tail_of_queue_` back |
| `MpscWaitFree.RunStepWorks` | benchmark/common/mpsc_queue.h:243-306 | every own step of an unfinished `enqueue` lowers an explicit bound on its work, and no step of another thread, producer or consumer, raises it |
| `MpscProgress.EnqueueFinishesAlone` | benchmark/common/mpsc_queue.h:243-306 | from every reachable state, a producer that runs alone returns within a bound linear in the distance of the tail, and its element is then in its ticket's cell, wherever the other threads stopped |
| `MpscDequeue.DequeueFinishesAlone` | benchmark/common/mpsc_queue.h:117-241 | from every reachable state, a `dequeue` that is under way or called then and runs alone returns within 2t² + 17t + 18 steps, where t is 1622 times the number of buffers, and delivers at most one element: a scan's target only moves towards the head |
| `MpscAnswer.DequeueAnswers` | benchmark/common/mpsc_queue.h:117-241 | in every reachable state in which every `enqueue` has returned, a `dequeue` delivers the first element that waits, with its payload, if there is one and the tail is not at a buffer between the head and it; otherwise it delivers nothing |
| `MpscAnswer.StuckForever` | benchmark/common/mpsc_queue.h:231-239 | as long as the producers rest, an element beyond a tail buffer that is not before the head is not delivered by any number of steps of the consumer |
| `MpscStuck.ElementStuck` | benchmark/common/mpsc_queue.h:281-298 | the failing case: a run of 3241 producers after which all of them have returned, ticket 2N waits, and no number of calls of `dequeue` delivers anything |
| `TopPlan.Compare` | src/executor/operator/physical_top.cppm:50-59 | the comparison loop decides by the first sort expression in which the rows differ, and prefers the left row if none does |
| `TopPlan.RowOrderIsTotal` | src/executor/operator/physical_top.cppm:50-59 | for every list of ascending and descending expressions the comparison is a total preorder |
| `TopPlan.SameKeysAgree` | src/executor/operator/physical_top.cppm:50-59 | two results that agree up to ties have equal values in every sort expression, position by position |
| `TopSolver.TopSolver.HeapifyDown` | src/executor/operator/physical_top.cpp:73-88 | repairs heap order below one position and only permutes the candidates |
| `TopSolver.TopSolver.AddCandidate` | src/executor/operator/physical_top.cpp:89-105 | after each row, the candidates and the rows left behind are together exactly the rows seen, no row left behind would have to come before a candidate, and nothing is left behind while there is room |
| `TopSolver.TopSolver.SortResult` | src/executor/operator/physical_top.cpp:106-119 | sorts the candidates in place, keeping which rows they are |
| `TopSolver.TopSolver.SolveTop` | src/executor/operator/physical_top.cpp:120-134 | the result is a sorted selection of the first `limit` rows of the input in some order of ties, and selection and rest are a partition of the input |
| `TopSolver.ExecuteTop` | src/executor/operator/physical_top.cpp:330-362 | the output blocks hold, packed, that selection without its first `offset` rows |
| `DataBlocks.WriteToOutput` | src/executor/operator/physical_top.cpp:135-175 | the rows come out in order, in blocks that are full except the last |
| `DataBlocks.HandleOutputOffset` | src/executor/operator/physical_top.cpp:364-402 | shifting the blocks in place through one swap block leaves exactly the rows from `offset` on, packed again; no row is read after it was overwritten |
| `MergeTop.MergeIsTop` | src/executor/operator/physical_merge_top.cpp:123-136 | merging two first-k selections and cutting at k gives a first-k selection of all the rows behind both |
| `MergeTop.MergeIds` | src/executor/operator/physical_merge_top.cpp:112-136 | the chosen block positions are those of the rows of the stable merge, and a row of the old blocks that goes to place t was at place t or before |
| `MergeTop.WriteBack` | src/executor/operator/physical_merge_top.cpp:137-173 | building the result inside the old blocks, new blocks first and then from the last old block to the first, yields the merged rows: no old row is overwritten before it is read |
| `MergeTop.MergeTopState.Execute` | src/executor/operator/physical_merge_top.cpp:72-176 | the first batch is kept as it is, and after each further one the kept blocks hold, packed, the merge of the batches so far cut at `limit`; an empty batch is refused and changes nothing |
| `MergeTop.MergeTopState.Finish` | src/executor/operator/physical_merge_top.cpp:177-181 | the output is the kept rows without the first `offset` |
| `TopPlan.ReceivedIsTop` | src/executor/operator/physical_merge_top.cpp:72-185 | whatever sorted batches arrive in whatever order, the kept rows are a first-k selection of everything received |
| `TopPlan.TaskletsAreTop` | src/executor/physical_planner.cpp:787-806 | for every partition of the rows into tasklets and every order in which their results arrive, merging the tasklets' first-k selections gives a first-k selection of all rows, including those the tasklets dropped |
| `TopPlan.BuildTop` | src/executor/physical_planner.cpp:758-806 | the checks in 64-bit arithmetic, where the sum may wrap, decide as they would in unbounded arithmetic |
| `TopPlan.AcceptedExactly` | src/executor/physical_planner.cpp:759-779 | a plan is built if and only if limit is positive, offset is not negative and their sum is below the largest u32 |
| `TopPlan.ParallelTopIsTop` | src/executor/physical_planner.cpp:787-806 | the per-tasklet Top with `limit + offset` and no offset, followed by MergeTop, yields the same sort keys as sorting all rows and taking positions `offset` to `offset + limit`, for every partition, arrival order and tie |
| `TopPlan.SerialTopIsTop` | src/executor/physical_planner.cpp:780-787 | so does the single Top |
| `ParallelTop.RunTop` | src/executor/physical_planner.cpp:758-806 | the whole query, with the planner, Top on every input of every tasklet and MergeTop on their blocks in any order: it is refused exactly for the stated limits and offsets, and for several inputs of a single tasklet with an offset; otherwise, with several tasklets or one input, the output is, packed, positions `offset` to `offset + limit` of a sorted arrangement of all rows, and with several inputs of a single tasklet the first rows of every input follow each other |
| `ParallelTop.SerialExactly` | src/executor/operator/physical_top.cpp:330-362 | what a single tasklet gives for several inputs is the first rows of all of them if and only if at most one input has rows, or there are no more rows than the limit and no row of a later input has to come before one of an earlier input |
| `ParallelTop.TwoCallsTwoRows` | src/executor/operator/physical_top.cpp:330-362 | the failing case: two inputs with one row each and limit 1 give two rows |
| `ParallelTop.AnswersTie` | src/executor/operator/physical_top.cppm:50-59 | two such answers have the same sort keys, row by row |
| `Ranking.TopIsPrefix` | src/executor/operator/physical_top.cpp:120-134 | every first-k selection has the sort keys of the first k rows of every sorted arrangement |
| `Limit.PhysicalLimit.Execute` | src/executor/operator/physical_limit.cpp:164-222 | the two loops of one call, on any blocks and any counter: what is passed on, what the counter is afterwards in the unsigned arithmetic of `UnSyncCounter`, and when a copy runs past the rows of a block |
| `Limit.LimitExactly` | src/executor/operator/physical_limit.cpp:95-222 | for every limit and offset, also negative ones, a call passes on exactly the wanted rows and leaves the right counter if and only if nothing is wanted, nothing is to be skipped, exactly all rows are to be skipped, or the wanted rows end inside the block of the last skipped row |
| `Limit.SkippedRowPassedOn` | src/executor/operator/physical_limit.cpp:95-112 | the failing case: LIMIT 1 OFFSET 3 over two rows passes on the second row |
| `Limit.CopiedPastEnd` | src/executor/operator/physical_limit.cpp:183-219 | the other failing case: OFFSET 1 LIMIT 2 over two rows and one row copies past the end of the first block |
| `Limit.StreamIsWindow` | src/executor/operator/physical_limit.cpp:164-232 | over any sequence of calls, the outputs together are positions `offset` to `offset + limit` of the whole input if (and, when rows can be told apart, only if) every call meets the condition or has no rows, and the rows that calls without rows take off the limit are not missed |
| `Limit.ParallelLimit` | src/executor/operator/physical_merge_limit.cpp:48-62 | one counter over all tasklets, then a merging operator that gets the rows in any order and grouping: what arrives are the first `limit + offset` rows that the tasklets' operator saw, and if the merging calls meet the stream condition, the result is positions `offset` to `offset + limit` of what arrives |
| `LimitRace.EnoughPass` | src/executor/operator/physical_limit.cpp:114-131 | with every load and store of the shared counter a step of its own, in every order of the tasklets' steps: when all have ended, at least the limit's number of rows, or all rows, have passed, and they are rows of the input |
| `LimitRace.RacingLimit` | src/executor/operator/physical_limit.cpp:95-232 | so whatever order they arrive in, the rows from `offset` on are as many as the query asks for and the input holds |
| `LimitRace.TooManyPass` | src/executor/operator/physical_limit.cpp:114-131 | a run in which two rows pass a limit of 1 |
| `LimitPlan.LimitRewrite` | src/executor/physical_planner.cpp:720-742 | one counter lets `limit + offset` rows of all tasklets through: whichever rows these are and whatever mix of them arrives, the rows taken are those taken from some mix of the whole streams, and they are min(limit, max(0, total - offset)) many |
| `LimitPlan.LimitRewriteBack` | src/executor/physical_planner.cpp:720-742 | conversely every result that the whole streams allow is still possible with the shared counter |
| `LimitPlan.BuildLimit` | src/executor/physical_planner.cpp:720-742 | the plan it builds can give exactly the results that a single Limit over all rows can give, unless `limit + offset` does not fit in 63 bits and there are several tasklets; then, and only then, the tasklets' limit is negative |
| `LimitPlan.PlanKeepsMeaning` | src/executor/physical_planner.cpp:720-742 | the plan for several tasklets can give exactly the results that a single Limit can give |
| `FragmentBuilder.FragmentBuilder.BuildFragments` | src/executor/fragment_builder.cpp:105-464 | the mutating recursion accepts exactly the accepted plans, terminates, appends exactly the operators of the pipeline, leaves the type and the source of its last writer, sets the source exactly once, and adds the fragments below it in order |
| `FragmentBuilder.FragmentBuilder.BuildFragment` | src/executor/fragment_builder.cpp:41-58 | for any number of plans: refused exactly if one of them is, and otherwise the last plan's fragment tree with the earlier ones behind it, each with the result sink at its root only and fragment ids counted up |
| `FragmentTheorems.PlansRunInOrder` | src/executor/fragment/plan_fragment.cpp:60-89 | every way down from a fragment of a later plan reaches the root of every earlier plan, so the plans run one after the other |
| `FragmentTheorems.ChainedPlans` | src/executor/fragment_builder.cpp:41-58 | chaining changes nothing else: with the plans before it cut off, the tree of every plan is the one the builder makes for this plan alone |
| `FragmentTheorems.CutGraft` | src/executor/fragment/plan_fragment.cpp:60-66 | cutting off the root that was added below a tree without its number gives that tree back |
| `FragmentTheorems.FlattenIsPreorder` | src/executor/fragment_builder.cpp:105-464 | operators followed by children, read over the fragment tree, is the preorder of the plan if and only if no operator has children that its case ignores |
| `FragmentTheorems.IgnoredChild` | src/executor/fragment_builder.cpp:158-171 | an accepted plan with an ignored child: a Filter with a right child, which the planner itself does not build |
| `FragmentTheorems.VisitsAll` | src/executor/fragment_builder.cpp:105-464 | the builder visits no more operators than the plan has, as many if and only if that holds, and then in preorder |
| `FragmentTheorems.NumberedInPreorder` | src/executor/fragment_builder.cpp:41-58 | fragments are numbered consecutively in preorder of the fragment tree |
| `FragmentTheorems.PipelineFacts` | src/executor/fragment_builder.cpp:146-457 | a fragment's type is that of its outermost Aggregate, Top, Sort, Update or Delete if it has one, else of its last operator; it has children exactly when its source is the local queue, except for CompactIndexPrepare |
| `FragmentTheorems.TreeIsOk` | src/executor/fragment_builder.cpp:105-464 | these facts hold in every fragment of the tree, and every fragment but the root sinks to a queue |
| `QueueSource.TaskCompletesOnce` | src/executor/operator/physical_sink.cpp:434-474 | the messages of a task contain exactly one completing message, as the last, if and only if its last call failed, sent one block, or sent at least one and the fragment materializes |
| `QueueSource.TwoLastBlocks` | src/executor/operator/physical_sink.cpp:453-472 | the failing case: two last blocks of a streaming task finish the source after the first and raise the unexpected-data error at the second |
| `QueueSource.QueueSourceState.GetData` | src/executor/operator_state.cpp:47-177 | one message: who is counted as finished, which error is kept (the first), which block goes to the next operator, when the source reports completion, and when it raises an error |
| `QueueSource.QueueSourceState.MarkCompletedTask` | src/executor/operator_state.cpp:29-42 | counts a task of a known fragment as finished, drops the fragment with its last task, and refuses an unknown one |
| `QueueSource.EveryInterleaving` | src/executor/operator_state.cpp:29-177 | in every interleaving of the tasks' messages the map counts exactly the unfinished tasks of each fragment, the error is never raised, and completion is reported exactly on the message that finishes the last task, when everything sent has been received |
| `QueueSource.ReceiveAll` | src/executor/operator_state.cpp:29-177 | for sinks that meet that condition, with their messages in the queue in any order of arrival: `GetData`, called once for each message, raises no error and returns true at the last message and at no other; the next operator has got every block in the order of arrival, and the first error is kept |
| `Crc.BuildTable` | benchmark/common/crc.hpp:13-22 | the nested loop fills the table with eight division steps of every byte |
| `Crc.TableStep` | benchmark/common/crc.hpp:33-34 | one table lookup equals feeding the eight bits of the byte one by one |
| `Crc.MakeCRC` | benchmark/common/crc.hpp:29-36 | for every byte sequence, every polynomial and every width of at least 8 bits the table-driven code computes the bit-by-bit reflected division |
| `Crc.BitStepInjective` | benchmark/common/crc.hpp:19 | a division step is injective when the polynomial has its top bit |
| `Crc.BurstDetected` | benchmark/common/crc.hpp:15-36 | two messages that differ only in a window of bits no wider than the check have different checks |
| `Crc.Crc32DetectsFourBytes` | benchmark/common/crc.hpp:40-41 | for CRC-32, equal checks of two messages that differ at most in four consecutive bytes mean equal messages |
| `BufferReader.BufferReader.ReceiveMore` | src/network/buffer_reader.cpp:147-192 | however the socket splits the bytes, the unread bytes followed by those still to come stay the same stream, at least the requested number becomes available, and a failure is due to the connection |
| `BufferReader.BufferReader.Scatter` | src/network/buffer_reader.cpp:160-172 | storing into the free part, in one or two stretches, overwrites no unread byte |
| `BufferReader.BufferReader.ReadValue` | src/network/buffer_reader.cpp:61-117 | returns the next bytes of the stream in network order, signed or unsigned, and leaves the rest of the stream |
| `BufferReader.BufferReader.ReadString` | src/network/buffer_reader.cpp:119-145 | returns the next `length` bytes of the stream, also when they exceed the buffer, with the terminator checked and dropped |
| `BufferReader.BufferReader.AnswerAll` | src/network/buffer_reader.cpp:34-192 | every sequence of integer and string reads returns what decoding the client's byte stream in one piece returns |
| `BufferReader.BigEndianRoundTrip` | src/network/buffer_reader.cpp:91-117 | a number that fits, sent in network order, is read back |
| `ExpressionTransformer.Split` | src/expression/expression_transformer.cpp:38-82 | the worklist terminates and emits the pieces in its breadth-first order |
| `ExpressionTransformer.SplitGivesLeaves` | src/expression/expression_transformer.cpp:38-82 | the pieces are, as a multiset, the leaves of recursive flattening, and none of them is a conjunction of the delimiter's kind |
| `ExpressionTransformer.ComposeAll` | src/expression/expression_transformer.cpp:56-66 | the fold composes from the left, and gives nothing for nothing |
| `ExpressionTransformer.SplitComposeKeepsMeaning` | src/expression/expression_transformer.cpp:38-82 | composing the pieces again evaluates to the same truth value in three-valued logic, on every row |
| `ExpressionTransformer.SplitOfCompose` | src/expression/expression_transformer.cpp:38-82 | splitting a composition of x0 to x(n-1), none of the delimiter's kind, returns x(n-1), ..., x2, x0, x1 |
| `FixHeap.FixHeapManager.Allocate` | src/storage/column_vector/fix_heap.cpp:82-132 | the place of a value lies behind everything given out before and within the chunks, in one chunk if values may not cross; it costs at most twice the value's size; the two refusals are exactly the stated ones |
| `FixHeap.FixHeapManager.AppendToHeap` | src/storage/column_vector/fix_heap.cpp:162-188 | after any sequence of appends every value ever stored is still found at its place |
| `FixHeap.FixHeapManager.AppendFromHeap` | src/storage/column_vector/fix_heap.cpp:225-271 | copying from this or another heap, with other chunk sizes and offsets, stores the same value as reading it there and appending it here; the loop terminates |
| `FixHeap.FixHeapManager.ReadFromHeap` | src/storage/column_vector/fix_heap.cpp:275-291 | reads the bytes at a place across chunks, and fails exactly when the heap does not reach that far |
| `FixHeap.StillReadable` | src/storage/column_vector/fix_heap.cpp:162-188 | new chunks and data written behind the used part never disturb a stored value |
| `ColumnEncoders.ColumnRoundTrip` | python/infinity/remote_thrift/types.py:196-217 | parsing an encoded column returns exactly its values |
| `ColumnEncoders.ArrayRoundTrip` | python/infinity/remote_thrift/types.py:220-234 | parsing an encoded column of arrays returns exactly its arrays |
| `ColumnEncoders.JoinedBlocks` | python/infinity/local_infinity/types.py:61-63 | the encodings of several blocks, joined, are the encoding of all their rows |
| `ColumnEncoders.ParseBytes` | python/infinity/remote_thrift/types.py:196-205 | the parsing loop on every byte string, well-formed or not |
| `ColumnEncoders.ParseArrays` | python/infinity/remote_thrift/types.py:220-234 | the nested parsing loop on every byte string |
| `Columns.VarcharColumn.Append` | src/storage/column_vector/column_vector.cpp:1179-1196 | a string of any length, stored in its cell or in the heap with its length cut to 23 bits, becomes the column's last value and the others stay; refused exactly when the column is full |
| `Columns.KeptExactly` | src/parser/type/complex/varchar.h:54-61 | what is read for a stored string is that string if and only if it is shorter than 8 MB |
| `Columns.LongStringLost` | src/parser/type/complex/varchar.h:54-61 | the failing case: a string of 8 MB is read as the empty string |
| `Columns.VarcharColumn.Encode` | src/embedded_infinity/wrap_infinity.cpp:723-755 | the sizing pass yields exactly the bytes that the writing pass fills, without gap or overrun, and they are the encoding of the column's values |
| `Columns.TensorColumn.Append` | src/storage/column_vector/column_vector.cpp:1197-1213 | accepts exactly the non-empty tensors of whole embeddings that fit a chunk, while the column is not full, and then holds as many of their embeddings as the 16-bit count says |
| `Columns.KeptTensorExactly` | src/parser/type/complex/tensor_type.h:23-26 | what is read for a stored tensor is that tensor if and only if it has fewer than 65536 embeddings |
| `Columns.LongTensorLost` | src/storage/column_vector/column_vector.cpp:1197-1213 | the failing case: a tensor of 65536 embeddings of one byte is accepted and read as empty |
| `Columns.TensorColumn.Encode` | src/embedded_infinity/wrap_infinity.cpp:766-790 | the same for tensors, sized by counting embeddings |
| `TensorArrays.TensorArrayColumn.Append` | src/storage/column_vector/column_vector.cpp:1214-1238 | stores the tensors in one heap and the memory of their list in the other; accepts exactly the arrays whose 16-bit count is not zero and whose counted tensors are storable, while the column is not full, and then holds these tensors |
| `TensorArrays.TensorArrayColumn.Encode` | src/embedded_infinity/wrap_infinity.cpp:792-834 | reading every list back from its heap and every tensor from the other, the sizing pass yields exactly the bytes that the writing pass fills, and they are the encoding of the column's arrays |
| `TensorArrays.KeptArrayExactly` | src/parser/type/complex/tensor_array_type.h:21-25 | what is read for a stored array is that array if and only if it has fewer than 65536 tensors and each of them fewer than 65536 embeddings |
| `TensorArrays.LongArrayLost` | src/storage/column_vector/column_vector.cpp:1214-1238 | the failing case: an array of 65537 tensors of one byte is stored without an error, and one tensor comes back |
| `Columns.StoreSendParse` | src/embedded_infinity/wrap_infinity.cpp:723-755 | the strings of a block, stored in a column, sent and parsed by the client, arrive as they were if and only if each is shorter than 8 MB |
| `Columns.StoreSendParseTensors` | src/embedded_infinity/wrap_infinity.cpp:766-790 | the tensors of a block are refused exactly if one of them is; otherwise they arrive as they were if and only if each has fewer than 65536 embeddings |
| `TensorArrays.StoreSendParseArrays` | src/embedded_infinity/wrap_infinity.cpp:792-834 | the tensor arrays of a block are refused exactly if one of them is; otherwise they arrive with as many tensors and embeddings as the 16-bit counts say, and so as they were if and only if all counts fit |
| `InputLoad.InputBlock.Load` | src/executor/physical_operator.cpp:56-92 | for every list of columns to load: what the inserting loop and the row loop leave in the block, and when an append or the reading of a row id fails |
| `InputLoad.LoadedExactly` | src/executor/physical_operator.cpp:56-92 | if there are rows, the block is left with its own columns and every loaded column filled row by row with the stored values if and only if the indices increase and lie before the row-id column; otherwise, with an index behind the row-id column, it fails |
| `InputLoad.LoadedOutOfOrder` | src/planner/optimizer/lazy_load.cpp:104-116 | the failing case: loading at 1 and then at 0 leaves the first loaded column empty and its value in another column, or fails if the types differ |
| `InputLoad.LastStaysExactly` | src/executor/physical_operator.cpp:64-73 | the row-id column stays the last one if and only if every insertion lies before the last column |
| `InputLoad.OwnPlaceExactly` | src/executor/physical_operator.cpp:64-71 | every inserted column ends at its own index if and only if the indices are strictly increasing |
| `InputLoad.InsertedPlace` | src/executor/physical_operator.cpp:64-71 | for every list of indices that can be inserted, where each inserted column ends up |
| `InputLoad.OthersInOrder` | src/executor/physical_operator.cpp:64-71 | for every list of indices, the block's own columns are all still there, in their order, and at none of the loaded columns' places |
| `InputLoad.AddressInSegment` | src/executor/physical_operator.cpp:78-81 | for every offset of a segment, the 16-bit block number and the row name that offset |
| `InputLoad.InsertItems` | src/executor/physical_operator.cpp:95-115 | names and types are inserted at the same places as the columns |
| `QueryContext.QueryContext.QueryStatement` | src/main/query_context.cpp:114-255 | whichever stage, also the commit, raises a recoverable error or a parser exception: which transaction the statement uses, that it is gone afterwards and the manager's active transactions are as before except after a parser exception, how each counter grows, and what the profile records |
| `QueryContext.QueryStatements` | src/main/query_context.cpp:114-344 | over every sequence of statements: the counters of session and manager; the session's commit counter agrees with the manager's if and only if no statement is rolled back; and every statement has a transaction of its own if and only if none but the last ends with a parser exception |
| `QueryContext.RollbackCountedAsCommit` | src/main/session.cppm:53-59 | the failing case of the counters: one statement that fails |
| `QueryContext.FailedStatementCommitted` | src/main/query_context.cpp:219-222 | the failing case of the transactions: a parser exception and then a statement that succeeds are in one transaction, which is committed |

## Left out

- Buffer folding, `free` (a buffer that lost the race to be linked is forgotten), memory orders weaker than sequential consistency, and the wrap of 32-bit tickets in the queue.
- What `dequeue` answers while producers are at work, beyond which elements it can deliver and in which order.
- TopSolver.TopSolver.SolveTop: the heap holds rows instead of pairs of block and row numbers; evaluating the sort expressions, and floating-point keys that are not a number, are not modelled.
- MergeTop.MergeTopState.Execute: merging when one side is longer than the limit, where the source writes past the blocks it keeps; a Top sends no such batch.
- ParallelTop.RunTop: a tasklet without rows sends nothing; the sink's own error for that case is not modelled.
- Limit.ParallelLimit: the calls of several tasklets on the shared counter are taken as atomic, and so in LimitPlan.
- LimitRace.RacingLimit: loads and stores happen in some order, which C++ does not promise for a data race; which rows pass is not stated.
- The error that a negative LIMIT raises after the call.
- FragmentBuilder.FragmentBuilder.BuildFragment: the Explain operators with their texts. A fragment that is the child of several others appears once under each.
- QueueSource.QueueSourceState.GetData: what is forwarded for an error or for a task without rows, where the source reads another type's memory, and the early closing of the queue by MergeLimit and MergeTop.
- The null-terminated `read_string` of the socket reader, which copies past the terminator.
- The other expression visitors, which only descend.
- FixHeap.FixHeapManager.AppendFromHeap: within one heap, copying bytes that were never given out; and heaps backed by the buffer manager.
- Columns.VarcharColumn.Append: chunk numbers beyond 32 bits.
- Columns.VarcharColumn.Encode: columns of 2 GB and more, where the 32-bit offset of the writing pass overflows.
- Columns.TensorColumn.Encode: columns of 2 GB and more, for the same reason.
- TensorArrays.TensorArrayColumn.Append: blocks whose stored tensors have more than 64 GB, which may need more chunks than a 16-bit number can name.
- ColumnEncoders.ParseBytes: the text and number decoding of each value after it is cut out.
- ColumnEncoders.ParseArrays: the number decoding of each tensor after it is cut out.
- InputLoad.InputBlock.Load: one block and one table; the stored values are a function of segment, block, column and row.
- QueryContext.QueryContext.QueryStatement: unrecoverable exceptions, which raise a signal, and the records of running queries.
- Aggregation, joins, index planning, search operators, storage, networking and configuration: not modelled, the first three because their plans are cut by the same builder, the rest because they are I/O or flat tables.
