/** What the queue guarantees in every run, for any number of producers and any schedule. */
module MpscTheorems {
  import opened Wrappers
  import opened MpscQueue
  import opened MpscInvariant
  import opened MpscProducerProof
  import opened MpscConsumerProof

  lemma StepInv(s: State, a: Action)
    requires Inv(s)
    ensures Inv(Step(s, a))
  {
    match a
    case Produce(i, v) => if i < |s.producers| { ProducerStepInv(s, i, v); }
    case Consume => ConsumerStepInv(s, Step(s, a));
  }

  lemma {:induction false} RunInv(threads: nat, states: seq<State>, actions: seq<Action>, k: nat)
    requires IsRun(threads, states, actions) && k < |states|
    ensures Inv(states[k])
  {
    if k == 0 {
      InitInv(threads);
    } else {
      RunInv(threads, states, actions, k - 1);
      assert StepAt(states, actions, k - 1);
      StepInv(states[k - 1], actions[k - 1]);
    }
  }

  // ----- the chain of buffers -----

  /**
   The linked buffers form one doubly linked list with positions 1, 2, 3, ..., both ends of
   the queue point into it, and no step has read through NULL or outside a buffer.
   */
  ghost predicate OneChain(s: State) {
    && !s.fault
    && s.tailBuf in s.h.chain && s.headBuf in s.h.chain
    && ChainOk(s.heap, s.h.chain)
  }

  lemma AlwaysOneChain(threads: nat, states: seq<State>, actions: seq<Action>, k: nat)
    requires IsRun(threads, states, actions) && k < |states|
    ensures OneChain(states[k])
  {
    RunInv(threads, states, actions, k);
  }

  // ----- tickets and cells -----

  /** A producer that is about to store its data or its flag. */
  ghost predicate Storing(p: Producer) {
    p.WriteData? || p.SetFlag?
  }

  /** The cell of producer `i` is cell L mod NODE_SIZE of buffer number L div NODE_SIZE, empty, and nobody else's. */
  ghost predicate OwnsCell(s: State, i: nat)
    requires i < |s.producers| && Storing(s.producers[i])
  {
    var p := s.producers[i];
    var L := p.op.location;
    && L / NODE_SIZE < |s.h.chain| && p.buf == s.h.chain[L / NODE_SIZE]
    && p.index == L % NODE_SIZE
    && ValidCell(s, p.buf, p.index) && Cell(s, p.buf, p.index).isSet == 0
    && L < |s.h.issued| && s.h.issued[L] == p.op.data
    && forall j: nat | j < |s.producers| && j != i && Storing(s.producers[j]) ::
         s.producers[j].buf != p.buf || s.producers[j].index != p.index
  }

  lemma InvOwnsCell(s: State, i: nat)
    requires SharedOk(s) && ProducersOk(s) && i < |s.producers| && Storing(s.producers[i])
    ensures OwnsCell(s, i)
  {
    var p := s.producers[i];
    assert ProducerOk(s, i);
    SlotIsCell(s, p.buf, p.index, p.op.location);
    forall j: nat | j < |s.producers| && j != i && Storing(s.producers[j])
      ensures s.producers[j].buf != p.buf || s.producers[j].index != p.index
    {
      assert ProducerOk(s, j);
    }
  }

  /** The `enqueue` that holds ticket L stores into the cell of ticket L, and no two ever share a cell. */
  lemma TicketOwnsCell(threads: nat, states: seq<State>, actions: seq<Action>, k: nat, i: nat)
    requires IsRun(threads, states, actions) && k < |states|
    requires i < |states[k].producers| && Storing(states[k].producers[i])
    ensures OwnsCell(states[k], i)
  {
    RunInv(threads, states, actions, k);
    InvOwnsCell(states[k], i);
  }

  /** Once no producer holds ticket `L` any more, the cell of `L` carries its payload. */
  lemma PublishedWhenReleased(threads: nat, states: seq<State>, actions: seq<Action>, k: nat, L: nat)
    requires IsRun(threads, states, actions) && k < |states|
    requires L < states[k].tail
    requires forall i: nat | i < |states[k].producers| :: !Holds(states[k].producers[i], L)
    ensures L < |states[k].h.issued|
    ensures Slot(states[k].heap, states[k].h.chain, L).isSet != 0
    ensures Slot(states[k].heap, states[k].h.chain, L).data == states[k].h.issued[L]
  {
    RunInv(threads, states, actions, k);
    assert SlotOk(states[k], L);
  }

  // ----- what one step may change -----

  /** Positions, `prev_` and written `next_` links stay; heads, tickets and deliveries only grow. */
  ghost predicate BufferMonotone(s: State, s': State, b: nat)
    requires b < |s.heap|
  {
    && b < |s'.heap|
    && s'.heap[b].position == s.heap[b].position && s'.heap[b].prev == s.heap[b].prev
    && (s.heap[b].next.Some? ==> s'.heap[b].next == s.heap[b].next)
    && s.heap[b].head <= s'.heap[b].head
  }

  ghost predicate HistoryMonotone(s: State, s': State) {
    s.h.chain <= s'.h.chain && s.h.issued <= s'.h.issued && s.h.deliveries <= s'.h.deliveries
  }

  /** A cell moves 0, 1, 2; it is set with the payload of its ticket and then keeps its data. */
  ghost predicate CellMonotone(s: State, s': State, L: nat) {
    var c, c' := Slot(s.heap, s.h.chain, L), Slot(s'.heap, s'.h.chain, L);
    && (c'.isSet == c.isSet || c'.isSet == c.isSet + 1 <= 2)
    && (c.isSet != 0 ==> c'.data == c.data)
    && (c.isSet == 0 && c'.isSet == 1 ==> L < |s.h.issued| && c'.data == s.h.issued[L])
  }

  lemma ProducerBuffer(s: State, i: nat, value: int, b: nat)
    requires i < |s.producers| && b < |s.heap|
    ensures BufferMonotone(s, ProducerStep(s, i, value), b)
    ensures HistoryMonotone(s, ProducerStep(s, i, value))
  {
    match s.producers[i]
    case WriteData(_, _, _) =>
    case SetFlag(_, _, _) =>
    case _ =>
  }

  lemma MarkedBuffer(s: State, l: Locals, data: int, b: nat)
    requires b < |s.heap|
    ensures BufferMonotone(s, MarkTakenStep(s, l, data), b)
    ensures HistoryMonotone(s, MarkTakenStep(s, l, data))
  {
  }

  lemma LookingStep(s: State)
    requires Looking(s.consumer)
    ensures var s' := ConsumerStep(s);
      && s'.heap == s.heap && s'.h == s.h && s'.headBuf == s.headBuf
      && s'.producers == s.producers && s'.tail == s.tail && s'.tailBuf == s.tailBuf
  {
    if s.consumer.ScanStep? {
    }
  }

  /** What the consumer leaves alone. */
  ghost predicate ProducersSide(s: State, s': State) {
    && s'.producers == s.producers && s'.tail == s.tail && s'.tailBuf == s.tailBuf
    && s'.h.chain == s.h.chain && s'.h.allocator == s.h.allocator && s'.h.issued == s.h.issued
  }

  lemma MarkedFrame(s: State, l: Locals, data: int)
    ensures ProducersSide(s, MarkTakenStep(s, l, data))
  {
  }

  lemma ConsumerFrame(s: State)
    ensures ProducersSide(s, ConsumerStep(s))
  {
    if Looking(s.consumer) {
      LookingStep(s);
    } else if s.consumer.MarkTaken? {
      MarkedFrame(s, s.consumer.l, s.consumer.data);
    }
  }

  lemma ConsumerBuffer(s: State, b: nat)
    requires b < |s.heap|
    ensures BufferMonotone(s, ConsumerStep(s), b)
    ensures HistoryMonotone(s, ConsumerStep(s))
  {
    if Looking(s.consumer) {
      LookingStep(s);
    } else if s.consumer.MarkTaken? {
      MarkedBuffer(s, s.consumer.l, s.consumer.data, b);
    }
  }

  lemma ProducerCell(s: State, i: nat, value: int, L: nat)
    requires Inv(s) && i < |s.producers|
    ensures CellMonotone(s, ProducerStep(s, i, value), L)
  {
    assert ProducerOk(s, i);
    assert SlotOk(s, L);
    var p := s.producers[i];
    match p
    case WriteData(op, buf, index) =>
      SlotIsCell(s, buf, index, op.location);
      StoreCellFrame(s, buf, index, Cell(s, buf, index).(data := op.data), op.location,
                     StoreCell(s, buf, index, Cell(s, buf, index).(data := op.data)));
    case SetFlag(op, buf, index) =>
      SlotIsCell(s, buf, index, op.location);
      StoreCellFrame(s, buf, index, Cell(s, buf, index).(isSet := 1), op.location,
                     StoreCell(s, buf, index, Cell(s, buf, index).(isSet := 1)));
    case AllocAhead(_) | Alloc(_, _) =>
      AllocFrame(s, i, p.buf, AllocBuffer(s, i, p.buf));
    case LinkAhead(_, _) | Link(_, _, _) =>
      if s.heap[p.buf].next.None? {
        LinkFrame(s, i, p.buf, p.newArr, LinkBuffer(s, p.buf, p.newArr));
      }
    case _ =>
  }

  lemma ConsumerCell(s: State, L: nat)
    requires Inv(s)
    ensures CellMonotone(s, ConsumerStep(s), L)
  {
    assert SlotOk(s, L);
    if Looking(s.consumer) {
      LookingStep(s);
    } else if s.consumer.MarkTaken? {
      MarkedCell(s, s.consumer.l, s.consumer.data, L);
    } else if s.consumer.LoadHead? || s.consumer.TakeHead? {
      HeadCell(s, L);
    }
  }

  lemma HeadCell(s: State, L: nat)
    requires SharedOk(s) && (s.consumer.LoadHead? || s.consumer.TakeHead?)
    ensures Slot(ConsumerStep(s).heap, ConsumerStep(s).h.chain, L) == Slot(s.heap, s.h.chain, L)
  {
    HeadFacts(s);
    var b := s.headBuf;
    if s.heap[b].head < NODE_SIZE {
      StoreHeadFrame(s, b, HeadSlot(s), StoreHead(s, b, s.heap[b].head + 1));
    }
  }

  lemma MarkedCell(s: State, l: Locals, data: int, L: nat)
    requires SharedOk(s) && ChosenOk(s, l)
    ensures CellMonotone(s, MarkTakenStep(s, l, data), L)
  {
    var M := Base(s, l.tnBuf) + l.tnIndex;
    SlotIsCell(s, l.tnBuf, l.tnIndex, M);
    if AdvancesHead(s, l) { MarkAdvances(s, l, data, M); } else { MarkStays(s, l, data, M); }
  }

  lemma StepBuffer(s: State, a: Action, b: nat)
    requires b < |s.heap|
    ensures BufferMonotone(s, Step(s, a), b) && HistoryMonotone(s, Step(s, a))
  {
    match a
    case Produce(i, v) => if i < |s.producers| { ProducerBuffer(s, i, v, b); }
    case Consume => ConsumerBuffer(s, b);
  }

  lemma StepCell(s: State, a: Action, L: nat)
    requires Inv(s)
    ensures CellMonotone(s, Step(s, a), L)
  {
    match a
    case Produce(i, v) => if i < |s.producers| { ProducerCell(s, i, v, L); } else { assert SlotOk(s, L); }
    case Consume => ConsumerCell(s, L);
  }

  ghost predicate Monotone(s: State, s': State) {
    && HistoryMonotone(s, s')
    && (forall b: nat | b < |s.heap| :: BufferMonotone(s, s', b))
    && (forall L: nat :: CellMonotone(s, s', L))
  }

  lemma StepMonotone(s: State, a: Action, s': State)
    requires Inv(s) && s' == Step(s, a)
    ensures Monotone(s, s')
  {
    StepBuffer(s, a, s.headBuf);
    forall b: nat | b < |s.heap| ensures BufferMonotone(s, s', b) {
      StepBuffer(s, a, b);
    }
    forall L: nat ensures CellMonotone(s, s', L) {
      StepCell(s, a, L);
    }
  }

  /**
   In every run every `next_` is written once, positions and `prev_` never change, every
   cell only moves from empty to set to handled, and its data never changes once it is set.
   */
  lemma CellsOnlyAdvance(threads: nat, states: seq<State>, actions: seq<Action>, k: nat)
    requires IsRun(threads, states, actions) && k < |actions|
    ensures Monotone(states[k], states[k + 1])
  {
    RunInv(threads, states, actions, k);
    assert StepAt(states, actions, k);
    StepMonotone(states[k], actions[k], states[k + 1]);
  }

  // ----- deliveries -----

  /** A delivered value is the payload of the ticket of its cell. */
  ghost predicate ExactAt(h: History, j: nat)
    requires j < |h.deliveries|
  {
    0 <= h.deliveries[j].slot < |h.issued| && h.deliveries[j].value == h.issued[h.deliveries[j].slot]
  }

  /** Every delivered value is its ticket's payload, and no cell is delivered twice. */
  ghost predicate Exact(h: History) {
    && (forall j: nat | j < |h.deliveries| :: ExactAt(h, j))
    && (forall j: nat, k: nat | j < k < |h.deliveries| :: h.deliveries[j].slot != h.deliveries[k].slot)
  }

  lemma InvExact(s: State)
    requires DeliveriesOk(s)
    ensures Exact(s.h)
  {
    forall j: nat | j < |s.h.deliveries| ensures ExactAt(s.h, j) {
      assert DeliveryOk(s, j);
    }
  }

  /** On both dequeue paths together, no cell is delivered twice and every value is the one its owner enqueued. */
  lemma DeliveredOnce(threads: nat, states: seq<State>, actions: seq<Action>, k: nat)
    requires IsRun(threads, states, actions) && k < |states|
    ensures Exact(states[k].h)
  {
    RunInv(threads, states, actions, k);
    InvExact(states[k]);
  }

  // ----- in-order runs -----

  /** The consumer looks at its head cell and finds it empty. */
  ghost predicate FindsPending(s: State, a: Action) {
    a.Consume? && s.consumer.WaitHead? && ValidHead(s) && HeadFlag(s) == 0
  }

  lemma PendingStep(s: State, a: Action)
    requires !FindsPending(s, a)
    ensures Step(s, a).h.sawPending == s.h.sawPending
  {
    match a
    case Produce(i, _) =>
    case Consume =>
      if Looking(s.consumer) {
        LookingStep(s);
      }
  }

  lemma {:induction false} NeverPending(threads: nat, states: seq<State>, actions: seq<Action>, k: nat)
    requires IsRun(threads, states, actions) && k < |states|
    requires forall j: nat | j < k :: !FindsPending(states[j], actions[j])
    ensures !states[k].h.sawPending
  {
    if k > 0 {
      NeverPending(threads, states, actions, k - 1);
      assert StepAt(states, actions, k - 1);
      PendingStep(states[k - 1], actions[k - 1]);
    }
  }

  lemma InOrderDeliveries(s: State)
    requires Inv(s) && !s.h.sawPending
    ensures |s.h.deliveries| <= |s.h.issued|
    ensures forall j: nat | j < |s.h.deliveries| :: s.h.deliveries[j] == Delivery(j, s.h.issued[j])
  {
    forall j: nat | j < |s.h.deliveries|
      ensures j < |s.h.issued| && s.h.deliveries[j] == Delivery(j, s.h.issued[j])
    {
      assert DeliveryOk(s, j);
    }
    if |s.h.deliveries| > 0 {
      assert s.h.deliveries[|s.h.deliveries| - 1].slot < |s.h.issued|;
    }
  }

  /**
   In a run where no `dequeue` finds its head cell empty, the delivered values are the
   payloads of tickets 0, 1, 2, ..., in order, without a gap or a repeat, across buffers.
   */
  lemma FirstInFirstOut(threads: nat, states: seq<State>, actions: seq<Action>, k: nat)
    requires IsRun(threads, states, actions) && k < |states|
    requires forall j: nat | j < k :: !FindsPending(states[j], actions[j])
    ensures |states[k].h.deliveries| <= |states[k].h.issued|
    ensures forall j: nat | j < |states[k].h.deliveries| ::
      states[k].h.deliveries[j] == Delivery(j, states[k].h.issued[j])
  {
    NeverPending(threads, states, actions, k);
    RunInv(threads, states, actions, k);
    InOrderDeliveries(states[k]);
  }

  // ----- cells that a head moves past without delivering them -----

  /** The consumer stores 2 into its chosen cell and moves a head past one that was not delivered. */
  ghost predicate JumpsOverHead(s: State, a: Action) {
    && a.Consume? && s.consumer.MarkTaken? && s.consumer.l.buf < |s.heap|
    && JumpsHead(s, s.consumer.l)
  }

  /** The head of its buffer is past the cell of ticket `L`, which was not delivered. */
  ghost predicate Lost(s: State, L: nat) {
    Passed(s.heap, s.h.chain, L) && !Delivered(s, L)
  }

  lemma SkippedStep(s: State, a: Action)
    requires Inv(s)
    ensures Step(s, a).h.skipped != s.h.skipped <==> JumpsOverHead(s, a)
    ensures s.h.skipped <= Step(s, a).h.skipped
    ensures (forall L | L in s.h.skipped :: L >= 0) ==> forall L | L in Step(s, a).h.skipped :: L >= 0
  {
    match a
    case Produce(i, _) =>
    case Consume =>
      if Looking(s.consumer) {
        LookingStep(s);
      } else if s.consumer.MarkTaken? {
        SkippedMark(s, s.consumer.l, s.consumer.data);
      }
  }

  lemma SkippedMark(s: State, l: Locals, data: int)
    requires SharedOk(s) && ChosenOk(s, l) && s.consumer == MarkTaken(l, data)
    ensures MarkTakenStep(s, l, data).h.skipped != s.h.skipped <==> JumpsOverHead(s, Consume)
    ensures s.h.skipped <= MarkTakenStep(s, l, data).h.skipped
    ensures (forall L | L in s.h.skipped :: L >= 0) ==> forall L | L in MarkTakenStep(s, l, data).h.skipped :: L >= 0
  {
    assert LinkOk(s.heap, s.h.chain, s.heap[l.buf].position - 1);
    var M := Base(s, l.tnBuf) + l.tnIndex;
    if AdvancesHead(s, l) {
      SlotIsCell(s, l.buf, s.heap[l.buf].head, Base(s, l.buf) + s.heap[l.buf].head);
      MarkAdvances(s, l, data, M);
    } else {
      MarkStays(s, l, data, M);
    }
  }

  lemma {:induction false} SkippedRun(threads: nat, states: seq<State>, actions: seq<Action>, k: nat)
    requires IsRun(threads, states, actions) && k < |states|
    ensures states[k].h.skipped == [] <==> forall j: nat | j < k :: !JumpsOverHead(states[j], actions[j])
    ensures forall L | L in states[k].h.skipped :: L >= 0
  {
    if k > 0 {
      SkippedRun(threads, states, actions, k - 1);
      RunInv(threads, states, actions, k - 1);
      assert StepAt(states, actions, k - 1);
      SkippedNext(states[k - 1], actions[k - 1], states[k]);
    }
  }

  lemma SkippedNext(s: State, a: Action, s': State)
    requires Inv(s) && s' == Step(s, a)
    ensures s'.h.skipped != s.h.skipped <==> JumpsOverHead(s, a)
    ensures s.h.skipped <= s'.h.skipped
    ensures (forall L | L in s.h.skipped :: L >= 0) ==> forall L | L in s'.h.skipped :: L >= 0
  {
    SkippedStep(s, a);
  }

  lemma LostIsSkipped(s: State, L: nat)
    requires Inv(s)
    ensures Lost(s, L) <==> L in s.h.skipped
  {
    assert AccountOk(s, L);
  }

  /** A run has lost no cell exactly when none of its steps jumps over a head cell. */
  lemma NothingLostExactly(threads: nat, states: seq<State>, actions: seq<Action>, k: nat)
    requires IsRun(threads, states, actions) && k < |states|
    ensures (forall L: nat :: !Lost(states[k], L)) <==> forall j: nat | j < k :: !JumpsOverHead(states[j], actions[j])
  {
    RunInv(threads, states, actions, k);
    SkippedRun(threads, states, actions, k);
    var s := states[k];
    forall L: nat ensures Lost(s, L) <==> L in s.h.skipped {
      LostIsSkipped(s, L);
    }
    if s.h.skipped != [] {
      var L := s.h.skipped[0];
      assert L in s.h.skipped;
      assert Lost(s, L);
    }
  }

  lemma LostStep(s: State, a: Action, s': State, L: nat)
    requires Inv(s) && Inv(s') && s' == Step(s, a) && Lost(s, L)
    ensures Lost(s', L)
  {
    LostIsSkipped(s, L);
    SkippedStep(s, a);
    LostIsSkipped(s', L);
  }

  lemma LostNext(threads: nat, states: seq<State>, actions: seq<Action>, k: nat, L: nat)
    requires IsRun(threads, states, actions) && k < |actions| && Lost(states[k], L)
    ensures Lost(states[k + 1], L)
  {
    RunInv(threads, states, actions, k);
    RunInv(threads, states, actions, k + 1);
    assert StepAt(states, actions, k);
    LostStep(states[k], actions[k], states[k + 1], L);
  }

  /** A lost element stays lost: no later `dequeue` of the run delivers it. */
  lemma {:induction false} LostForever(threads: nat, states: seq<State>, actions: seq<Action>, k: nat, j: nat, L: nat)
    requires IsRun(threads, states, actions) && k <= j < |states| && Lost(states[k], L)
    ensures Lost(states[j], L)
    decreases j
  {
    if k < j {
      LostForever(threads, states, actions, k, j - 1, L);
      LostNext(threads, states, actions, j - 1, L);
    }
  }
}
