/**
 The queue between fragments: what a task's sink sends (src/executor/operator/physical_sink.cpp)
 and how the reading side decides that every task of every child fragment has finished
 (src/executor/operator_state.cpp).
 */
module QueueSource {
  import opened Sequences
  import opened Wrappers

  datatype FragmentId = FragmentId(id: nat)
  datatype Status = Status(code: nat)

  /** A block of rows, an error, or word that a task has nothing to send. */
  datatype Message =
    | Data(fragment: FragmentId, index: Option<nat>, count: nat, isLast: bool)
    | Error(fragment: FragmentId, status: Status)
    | Nothing(fragment: FragmentId)

  /** Does the message finish its task? */
  predicate Completing(m: Message) {
    match m
    case Data(_, index, count, isLast) => isLast && (index.None? || index.value + 1 == count)
    case Error(_, _) => true
    case Nothing(_) => true
  }

  // ----- the sending side -----

  /** One call of the sink: the operator failed, or it has `blocks` blocks and may be complete. */
  datatype SinkCall = Failed(status: Status) | Output(complete: bool, blocks: nat)

  /** The messages of one call, in order; a materializing fragment sends nothing before it is complete. */
  function Sent(fragment: FragmentId, materialize: bool, call: SinkCall): seq<Message> {
    match call
    case Failed(status) => [Error(fragment, status)]
    case Output(complete, blocks) =>
      if !complete && materialize then []
      else seq(blocks, i requires 0 <= i < blocks =>
             Data(fragment, if complete && !materialize then None else Some(i), blocks, complete))
  }

  function SentByAll(fragment: FragmentId, materialize: bool, calls: seq<SinkCall>): seq<Message> {
    if calls == [] then []
    else SentByAll(fragment, materialize, calls[..|calls| - 1]) + Sent(fragment, materialize, calls[|calls| - 1])
  }

  predicate Final(call: SinkCall) {
    call.Failed? || call.complete
  }

  /** The calls of one task: only the last one reports failure or completion. */
  predicate TaskCalls(calls: seq<SinkCall>) {
    calls != [] && Final(calls[|calls| - 1]) && forall k | 0 <= k < |calls| - 1 :: !Final(calls[k])
  }

  /** Messages of one task that end with the only completing one. */
  predicate OneCompletion(fragment: FragmentId, messages: seq<Message>) {
    && messages != []
    && (forall k | 0 <= k < |messages| :: messages[k].fragment == fragment)
    && (forall k | 0 <= k < |messages| :: Completing(messages[k]) <==> k == |messages| - 1)
  }

  lemma {:induction false} EarlierCallsComplete(fragment: FragmentId, materialize: bool, calls: seq<SinkCall>)
    requires forall k | 0 <= k < |calls| :: !Final(calls[k])
    ensures forall k | 0 <= k < |SentByAll(fragment, materialize, calls)| ::
      var m := SentByAll(fragment, materialize, calls)[k]; m.fragment == fragment && !Completing(m)
  {
    if calls != [] {
      EarlierCallsComplete(fragment, materialize, calls[..|calls| - 1]);
    }
  }

  /**
   A task ends with exactly one completing message exactly when it failed, or its last output has at
   least one block and, unless the fragment materializes, no second one.
   */
  lemma TaskCompletesOnce(fragment: FragmentId, materialize: bool, calls: seq<SinkCall>)
    requires TaskCalls(calls)
    ensures var last := calls[|calls| - 1];
      OneCompletion(fragment, SentByAll(fragment, materialize, calls)) <==>
        last.Failed? || last.blocks == 1 || (materialize && last.blocks >= 1)
  {
    var front, last := calls[..|calls| - 1], calls[|calls| - 1];
    EarlierCallsComplete(fragment, materialize, front);
    var a, b := SentByAll(fragment, materialize, front), Sent(fragment, materialize, last);
    var all := SentByAll(fragment, materialize, calls);
    assert all == a + b;
    if b == [] {
      assert all != [] ==> !Completing(all[|all| - 1]);
    } else {
      assert forall k | |a| <= k < |all| :: all[k] == b[k - |a|];
      if last.Output? && !materialize && last.blocks >= 2 {
        assert Completing(all[|a|]) && |a| < |all| - 1;
      }
    }
  }

  // ----- the reading side -----

  /** `MarkCompletedTask` on the map of pending tasks; None is the unexpected-fragment error. */
  function Mark(pending: map<FragmentId, nat>, fragment: FragmentId): Option<map<FragmentId, nat>> {
    if fragment !in pending then None
    else if pending[fragment] == 1 then Some(map f | f in pending && f != fragment :: pending[f])
    else Some(pending[fragment := if pending[fragment] == 0 then 0xFFFF_FFFF_FFFF_FFFF else pending[fragment] - 1])
  }

  function Receive(pending: map<FragmentId, nat>, m: Message): Option<map<FragmentId, nat>> {
    if Completing(m) then Mark(pending, m.fragment) else Some(pending)
  }

  function Block(m: Message): seq<Message> {
    if m.Data? then [m] else []
  }

  /** The messages that carry a block. */
  function Blocks(messages: seq<Message>): seq<Message> {
    if messages == [] then [] else Block(messages[0]) + Blocks(messages[1..])
  }

  /** The status of the first error, if there is one. */
  function FirstError(messages: seq<Message>): Option<Status> {
    if messages == [] then None
    else if messages[0].Error? then Some(messages[0].status)
    else FirstError(messages[1..])
  }

  /** What is answered to each message of a queue: is the map empty after it? None is an error on the way. */
  function Answers(pending: map<FragmentId, nat>, queue: seq<Message>): Option<seq<bool>> {
    if queue == [] then Some([])
    else
      var next := Receive(pending, queue[0]);
      if next.None? then None
      else
        var rest := Answers(next.value, queue[1..]);
        if rest.None? then None else Some([|next.value| == 0] + rest.value)
  }

  datatype SourceError = EmptyQueue | UnexpectedFragment

  class QueueSourceState {
    var queue: seq<Message>
    var pending: map<FragmentId, nat>
    var status: Option<Status>
    /** What was handed to the next operator: the messages whose blocks it has got. */
    var input: seq<Message>

    method MarkCompletedTask(fragment: FragmentId) returns (ok: bool)
      modifies this`pending
      ensures ok <==> Mark(old(pending), fragment).Some?
      ensures ok ==> Mark(old(pending), fragment) == Some(pending)
      ensures !ok ==> pending == old(pending)
    {
      if fragment !in pending {
        return false;
      }
      var left := if pending[fragment] == 0 then 0xFFFF_FFFF_FFFF_FFFF else pending[fragment] - 1;
      if left == 0 {
        pending := map f | f in pending && f != fragment :: pending[f];
      } else {
        pending := pending[fragment := left];
      }
      return true;
    }

    /** Takes one message; true means that nothing more will come. Only the first error is recorded. */
    method GetData() returns (r: Result<bool, SourceError>)
      modifies this
      ensures old(queue) == [] ==> r == Failure(EmptyQueue) && unchanged(this)
      ensures old(queue) != [] ==>
        && queue == old(queue)[1..]
        && status == (if old(queue)[0].Error? && old(status).None? then Some(old(queue)[0].status) else old(status))
        && (r.Success? <==> Receive(old(pending), old(queue)[0]).Some?)
        && (r.Success? ==> Some(pending) == Receive(old(pending), old(queue)[0]) && r.value == (|pending| == 0))
        && (r.Success? ==> input == old(input) + Block(old(queue)[0]))
    {
      if queue == [] {
        return Failure(EmptyQueue);
      }
      var m := queue[0];
      queue := queue[1..];
      var ok := true;
      match m {
        case Data(fragment, index, count, isLast) =>
          if isLast && (index.None? || index.value + 1 == count) {
            ok := MarkCompletedTask(fragment);
          }
        case Error(fragment, s) =>
          if status.None? {
            status := Some(s);
          }
          ok := MarkCompletedTask(fragment);
        case Nothing(fragment) =>
          ok := MarkCompletedTask(fragment);
      }
      if !ok {
        return Failure(UnexpectedFragment);
      }
      if m.Data? {
        input := input + [m];
      }
      return Success(|pending| == 0);
    }
  }

  /**
   A streaming task whose last output has two blocks: its first message already empties the map,
   so the reader reports completion early, and its second one is unexpected.
   */
  lemma TwoLastBlocks(f: FragmentId)
    ensures var sent := Sent(f, false, Output(true, 2));
      && |sent| == 2
      && Receive(map[f := 1], sent[0]).Some? && |Receive(map[f := 1], sent[0]).value| == 0
      && Receive(Receive(map[f := 1], sent[0]).value, sent[1]) == None
  {
    var pending := Receive(map[f := 1], Sent(f, false, Output(true, 2))[0]).value;
    assert pending == map[];
  }

  // ----- all interleavings -----

  /** One task of a child fragment and the messages it sends, in its own order. */
  datatype Task = Task(fragment: FragmentId, messages: seq<Message>)

  ghost predicate Tasks(tasks: seq<Task>) {
    forall i | 0 <= i < |tasks| :: OneCompletion(tasks[i].fragment, tasks[i].messages)
  }

  /** How many tasks of `f` have messages left after `progress[i]` messages of each task `i` arrived. */
  ghost function Unfinished(tasks: seq<Task>, progress: seq<nat>, f: FragmentId): nat
    requires |progress| == |tasks|
  {
    if tasks == [] then 0
    else Unfinished(tasks[1..], progress[1..], f)
         + if tasks[0].fragment == f && progress[0] < |tasks[0].messages| then 1 else 0
  }

  /** The map counts exactly the unfinished tasks of each fragment, and holds no fragment without any. */
  ghost predicate Counts(pending: map<FragmentId, nat>, tasks: seq<Task>, progress: seq<nat>)
    requires |progress| == |tasks|
  {
    forall f: FragmentId ::
      && (f in pending <==> Unfinished(tasks, progress, f) > 0)
      && (f in pending ==> pending[f] == Unfinished(tasks, progress, f))
  }

  ghost predicate AllDelivered(tasks: seq<Task>, progress: seq<nat>)
    requires |progress| == |tasks|
  {
    forall i | 0 <= i < |tasks| :: progress[i] >= |tasks[i].messages|
  }

  lemma {:induction false} UnfinishedStep(tasks: seq<Task>, progress: seq<nat>, i: nat, f: FragmentId)
    requires |progress| == |tasks| && i < |tasks| && progress[i] < |tasks[i].messages|
    ensures Unfinished(tasks, progress[i := progress[i] + 1], f) ==
      Unfinished(tasks, progress, f) - if tasks[i].fragment == f && progress[i] + 1 == |tasks[i].messages| then 1 else 0
    decreases |tasks|
  {
    var progress' := progress[i := progress[i] + 1];
    if i == 0 {
      assert progress'[1..] == progress[1..];
    } else {
      assert progress'[1..] == progress[1..][i - 1 := progress[1..][i - 1] + 1];
      UnfinishedStep(tasks[1..], progress[1..], i - 1, f);
    }
  }

  lemma {:induction false} UnfinishedSome(tasks: seq<Task>, progress: seq<nat>, i: nat)
    requires |progress| == |tasks| && i < |tasks| && progress[i] < |tasks[i].messages|
    ensures Unfinished(tasks, progress, tasks[i].fragment) > 0
    decreases |tasks|
  {
    if i > 0 {
      UnfinishedSome(tasks[1..], progress[1..], i - 1);
    }
  }

  lemma {:induction false} UnfinishedNone(tasks: seq<Task>, progress: seq<nat>, f: FragmentId)
    requires |progress| == |tasks| && AllDelivered(tasks, progress)
    ensures Unfinished(tasks, progress, f) == 0
    decreases |tasks|
  {
    if tasks != [] {
      UnfinishedNone(tasks[1..], progress[1..], f);
    }
  }

  /** The map is empty exactly when every message of every task has arrived. */
  lemma EmptyWhenDelivered(pending: map<FragmentId, nat>, tasks: seq<Task>, progress: seq<nat>)
    requires |progress| == |tasks| && Counts(pending, tasks, progress)
    ensures |pending| == 0 <==> AllDelivered(tasks, progress)
  {
    if AllDelivered(tasks, progress) {
      forall f: FragmentId ensures f !in pending {
        UnfinishedNone(tasks, progress, f);
      }
      assert pending == map[];
    } else {
      var i :| 0 <= i < |tasks| && progress[i] < |tasks[i].messages|;
      UnfinishedSome(tasks, progress, i);
      assert tasks[i].fragment in pending;
    }
  }

  /** The next message of task `i` keeps the count, whatever arrived before it. */
  lemma ReceiveCounts(pending: map<FragmentId, nat>, tasks: seq<Task>, progress: seq<nat>, i: nat)
    requires Tasks(tasks) && |progress| == |tasks| && Counts(pending, tasks, progress)
    requires i < |tasks| && progress[i] < |tasks[i].messages|
    ensures Receive(pending, tasks[i].messages[progress[i]]).Some?
    ensures Counts(Receive(pending, tasks[i].messages[progress[i]]).value, tasks, progress[i := progress[i] + 1])
  {
    var m := tasks[i].messages[progress[i]];
    var progress' := progress[i := progress[i] + 1];
    UnfinishedSome(tasks, progress, i);
    assert OneCompletion(tasks[i].fragment, tasks[i].messages);
    var pending' := Receive(pending, m).value;
    forall f: FragmentId
      ensures f in pending' <==> Unfinished(tasks, progress', f) > 0
      ensures f in pending' ==> pending'[f] == Unfinished(tasks, progress', f)
    {
      UnfinishedStep(tasks, progress, i, f);
    }
  }

  // ----- runs -----

  /**
   An interleaving, from a given progress on: an order of arrival in which no task sends more messages
   than it has.
   */
  ghost predicate Interleaving(tasks: seq<Task>, progress: seq<nat>, schedule: seq<nat>)
    requires |progress| == |tasks|
    decreases |schedule|
  {
    schedule == [] || (
      var i := schedule[0];
      && i < |tasks| && progress[i] < |tasks[i].messages|
      && Interleaving(tasks, progress[i := progress[i] + 1], schedule[1..]))
  }

  /** The progress after these arrivals. */
  ghost function After(tasks: seq<Task>, progress: seq<nat>, schedule: seq<nat>): (r: seq<nat>)
    requires |progress| == |tasks| && Interleaving(tasks, progress, schedule)
    ensures |r| == |tasks|
    decreases |schedule|
  {
    if schedule == [] then progress
    else After(tasks, progress[schedule[0] := progress[schedule[0]] + 1], schedule[1..])
  }

  /** The messages in the order in which they arrive. */
  ghost function Arrived(tasks: seq<Task>, progress: seq<nat>, schedule: seq<nat>): (r: seq<Message>)
    requires |progress| == |tasks| && Interleaving(tasks, progress, schedule)
    ensures |r| == |schedule|
    decreases |schedule|
  {
    if schedule == [] then []
    else
      var i := schedule[0];
      [tasks[i].messages[progress[i]]] + Arrived(tasks, progress[i := progress[i] + 1], schedule[1..])
  }

  /** The map of pending tasks after these messages. */
  ghost function Pending(pending: map<FragmentId, nat>, messages: seq<Message>): Option<map<FragmentId, nat>> {
    if messages == [] then Some(pending)
    else
      var next := Receive(pending, messages[0]);
      if next.None? then None else Pending(next.value, messages[1..])
  }

  /**
   In every interleaving the unexpected-fragment error is never reached, the map counts the
   unfinished tasks of each child fragment, and `GetData` reports completion exactly on the
   message after which every message of every task has been consumed.
   */
  lemma {:induction false} EveryInterleaving(start: map<FragmentId, nat>, tasks: seq<Task>, progress: seq<nat>,
                                             schedule: seq<nat>)
    requires Tasks(tasks) && |progress| == |tasks| && Interleaving(tasks, progress, schedule)
    requires Counts(start, tasks, progress)
    ensures var pending := Pending(start, Arrived(tasks, progress, schedule));
      && pending.Some? && Counts(pending.value, tasks, After(tasks, progress, schedule))
      && (|pending.value| == 0 <==> AllDelivered(tasks, After(tasks, progress, schedule)))
    decreases |schedule|
  {
    if schedule == [] {
      EmptyWhenDelivered(start, tasks, progress);
    } else {
      var i := schedule[0];
      ReceiveCounts(start, tasks, progress, i);
      EveryInterleaving(Receive(start, tasks[i].messages[progress[i]]).value, tasks,
                        progress[i := progress[i] + 1], schedule[1..]);
    }
  }

  // ----- the source, message by message -----

  /** The answers to the messages of an interleaving that delivers everything: true to the last one only. */
  lemma {:induction false} AnswersInterleaving(pending: map<FragmentId, nat>, tasks: seq<Task>, progress: seq<nat>,
                                               schedule: seq<nat>)
    requires Tasks(tasks) && |progress| == |tasks| && Interleaving(tasks, progress, schedule)
    requires Counts(pending, tasks, progress) && AllDelivered(tasks, After(tasks, progress, schedule))
    ensures var answers := Answers(pending, Arrived(tasks, progress, schedule));
      && answers.Some? && |answers.value| == |schedule|
      && forall k | 0 <= k < |schedule| :: answers.value[k] <==> k == |schedule| - 1
    decreases |schedule|
  {
    if schedule != [] {
      var i, rest := schedule[0], schedule[1..];
      var next := Receive(pending, tasks[i].messages[progress[i]]);
      var progress' := progress[i := progress[i] + 1];
      ReceiveCounts(pending, tasks, progress, i);
      AnswersInterleaving(next.value, tasks, progress', rest);
      EmptyWhenDelivered(next.value, tasks, progress');
      assert AllDelivered(tasks, progress') <==> rest == [];
    }
  }

  /** A task of a child fragment, as the calls of its sink. */
  datatype SinkRun = SinkRun(fragment: FragmentId, materialize: bool, calls: seq<SinkCall>)

  /** The condition of `TaskCompletesOnce`. */
  predicate CompletesOnce(run: SinkRun) {
    && TaskCalls(run.calls)
    && var last := run.calls[|run.calls| - 1];
       last.Failed? || last.blocks == 1 || (run.materialize && last.blocks >= 1)
  }

  function TaskOf(run: SinkRun): Task {
    Task(run.fragment, SentByAll(run.fragment, run.materialize, run.calls))
  }

  function TasksOf(runs: seq<SinkRun>): (tasks: seq<Task>)
    ensures |tasks| == |runs|
  {
    seq(|runs|, i requires 0 <= i < |runs| => TaskOf(runs[i]))
  }

  lemma RunsAreTasks(runs: seq<SinkRun>)
    requires forall i | 0 <= i < |runs| :: CompletesOnce(runs[i])
    ensures Tasks(TasksOf(runs))
  {
    forall i | 0 <= i < |runs| ensures OneCompletion(TaskOf(runs[i]).fragment, TaskOf(runs[i]).messages) {
      assert CompletesOnce(runs[i]);
      TaskCompletesOnce(runs[i].fragment, runs[i].materialize, runs[i].calls);
    }
  }

  ghost function NothingArrived(tasks: seq<Task>): (progress: seq<nat>)
    ensures |progress| == |tasks|
  {
    seq(|tasks|, _ => 0)
  }

  lemma FirstMessage(pending: map<FragmentId, nat>, queue: seq<Message>)
    requires queue != [] && Answers(pending, queue).Some?
    ensures var next := Receive(pending, queue[0]);
      && next.Some? && Answers(next.value, queue[1..]).Some?
      && Answers(pending, queue).value == [|next.value| == 0] + Answers(next.value, queue[1..]).value
    ensures Blocks(queue) == Block(queue[0]) + Blocks(queue[1..])
    ensures FirstError(queue) == if queue[0].Error? then Some(queue[0].status) else FirstError(queue[1..])
  {
  }

  /** `GetData` on a message of a known fragment. */
  method TakeOne(source: QueueSourceState) returns (answer: bool)
    requires source.queue != [] && Receive(source.pending, source.queue[0]).Some?
    modifies source
    ensures source.queue == old(source.queue)[1..]
    ensures source.pending == Receive(old(source.pending), old(source.queue)[0]).value
    ensures answer == (|source.pending| == 0)
    ensures source.input == old(source.input) + Block(old(source.queue)[0])
    ensures source.status == old(if source.queue[0].Error? && source.status.None? then Some(source.queue[0].status)
                                 else source.status)
  {
    var r := source.GetData();
    answer := r.value;
  }

  /** `GetData`, called until the queue is empty. */
  method TakeAll(source: QueueSourceState) returns (answers: seq<bool>)
    requires Answers(source.pending, source.queue).Some?
    modifies source
    ensures source.queue == [] && Some(answers) == Answers(old(source.pending), old(source.queue))
    ensures source.input == old(source.input) + Blocks(old(source.queue))
    ensures source.status == if old(source.status).None? then FirstError(old(source.queue)) else old(source.status)
    decreases |source.queue|
  {
    if source.queue == [] {
      return [];
    }
    ghost var m, later := source.queue[0], source.queue[1..];
    FirstMessage(source.pending, source.queue);
    var answer := TakeOne(source);
    var rest := TakeAll(source);
    Associate(old(source.input), Block(m), Blocks(later));
    answers := [answer] + rest;
  }

  /**
   Sinks that complete once, their messages in the queue in any order of arrival: `GetData`, called once for each
   message, raises no error and answers true at the last message and at no other. The next operator has got every
   block, in the order of arrival, and the first error is kept.
   */
  method ReceiveAll(source: QueueSourceState, ghost runs: seq<SinkRun>, ghost schedule: seq<nat>)
    returns (answers: seq<bool>)
    requires forall i | 0 <= i < |runs| :: CompletesOnce(runs[i])
    requires var tasks, none := TasksOf(runs), NothingArrived(TasksOf(runs));
      && Interleaving(tasks, none, schedule) && AllDelivered(tasks, After(tasks, none, schedule))
      && source.queue == Arrived(tasks, none, schedule) && Counts(source.pending, tasks, none)
    modifies source
    ensures source.queue == [] && |answers| == |schedule|
    ensures forall k | 0 <= k < |answers| :: answers[k] <==> k == |answers| - 1
    ensures source.input == old(source.input) + Blocks(old(source.queue))
    ensures source.status == if old(source.status).None? then FirstError(old(source.queue)) else old(source.status)
  {
    RunsAreTasks(runs);
    AnswersInterleaving(source.pending, TasksOf(runs), NothingArrived(TasksOf(runs)), schedule);
    answers := TakeAll(source);
  }
}
