/**
 The multi-producer single-consumer queue of benchmark/common/mpsc_queue.h as a
 sequentially consistent transition system. Every step performs at most one load, store,
 compare-and-swap or fetch-add on memory that another thread can write. Any number of
 producers run `enqueue` any number of times and one consumer runs `dequeue`.

 Buffers are addressed by their index in `heap`; a NULL pointer is `None`. Reading through
 NULL or outside a buffer's cells is the explicit state `fault`.
 */
module MpscQueue {
  import opened Wrappers

  const NODE_SIZE: nat := 1620
  const UINT_MAX: nat := 0xFFFF_FFFF

  /** One cell: `isSet` is 0 (empty), 1 (set) or 2 (handled). */
  datatype Node = Node(data: int, isSet: nat)

  datatype BufferList = BufferList(cells: seq<Node>, next: Option<nat>, prev: Option<nat>, head: nat, position: nat)

  function NewBuffer(position: nat, prev: Option<nat>): BufferList {
    BufferList(seq(NODE_SIZE, _ => Node(0, 0)), None, prev, 0, position)
  }

  /** The local variables `location`, `data` and `go_back` of one `enqueue` call. */
  datatype Enqueue = Enqueue(location: nat, data: int, goBack: bool)

  /** Where a producer stands inside `enqueue`, with the locals that are live there. */
  datatype Producer =
    | Idle
    | LoadTail(op: Enqueue)
    | Locate(op: Enqueue, buf: nat, prevSize: int)
    | WriteData(op: Enqueue, buf: nat, index: int)
    | SetFlag(op: Enqueue, buf: nat, index: int)
    | AllocAhead(buf: nat)
    | LinkAhead(buf: nat, newArr: nat)
    | LoadNext(op: Enqueue, buf: nat)
    | Alloc(op: Enqueue, buf: nat)
    | Link(op: Enqueue, buf: nat, newArr: nat)
    | StoreTail(op: Enqueue, newArr: nat)
    | AdvanceTail(op: Enqueue, buf: nat, next: nat)

  /**
   The locals of the inner loop of `dequeue`: the probe position (`temphead_of_queue`,
   `temphead`), the two flags, the chosen cell `tn` and the scan position. `retargeted`
   records whether the scan replaced the chosen cell; no step reads it to decide anything.
   */
  datatype Locals = Locals(
    buf: nat, temphead: nat, moved: bool, allHandled: bool,
    tnBuf: nat, tnIndex: nat,
    scanBuf: nat, scanhead: nat,
    retargeted: bool)

  /** Where the consumer stands inside `dequeue`. */
  datatype Consumer =
    | Ready
    | LoadTailBuffer
    | CheckTailBuffer(prevSize: int)
    | CheckTail(prevSize: int)
    | LoadHead
    | WaitHead(l: Locals)
    | Probe(l: Locals)
    | ProbeHead(l: Locals)
    | ScanTest(l: Locals)
    | ScanStep(l: Locals)
    | ScanDone(l: Locals)
    | TakeData(l: Locals)
    | MarkTaken(l: Locals, data: int)
    | Recheck(l: Locals)
    | NextBuffer(l: Locals)
    | TakeHead
    | LeaveBuffer
    | EnterNext

  /** A delivered element: the number of the cell it came from, counted from the first buffer's first cell. */
  datatype Delivery = Delivery(slot: int, value: int)

  /**
   What happened so far; no step reads it. `chain` lists the linked buffers in link order,
   `issued` and `owner` give the payload and the thread of every ticket, `allocator` the
   thread that allocated every buffer, `deliveries` the results of `dequeue`, `skipped` the cells
   that a head moved past although they had not been handled, and `sawPending` whether
   a `dequeue` ever found its head cell still empty.
   */
  datatype History = History(
    chain: seq<nat>, issued: seq<int>, owner: seq<nat>, allocator: seq<nat>,
    deliveries: seq<Delivery>, skipped: seq<int>, sawPending: bool)

  datatype State = State(
    heap: seq<BufferList>,
    tail: nat,
    tailBuf: nat,
    headBuf: nat,
    producers: seq<Producer>,
    consumer: Consumer,
    fault: bool,
    h: History)

  function Init(threads: nat): State {
    State([NewBuffer(1, None)], 0, 0, 0, seq(threads, _ => Idle), Ready, false,
          History([0], [], [], [0], [], [], false))
  }

  // ----- memory access -----

  predicate ValidCell(s: State, buf: nat, index: int) {
    buf < |s.heap| && 0 <= index < |s.heap[buf].cells|
  }

  function Cell(s: State, buf: nat, index: int): Node
    requires ValidCell(s, buf, index)
  {
    s.heap[buf].cells[index]
  }

  function StoreCell(s: State, buf: nat, index: int, n: Node): State
    requires ValidCell(s, buf, index)
  {
    s.(heap := s.heap[buf := s.heap[buf].(cells := s.heap[buf].cells[index := n])])
  }

  function StoreHead(s: State, buf: nat, head: nat): State
    requires buf < |s.heap|
  {
    s.(heap := s.heap[buf := s.heap[buf].(head := head)])
  }

  /** Number of the first cell of a buffer, `buffer_size_ * (position_in_queue_ - 1)`. */
  function Base(s: State, buf: nat): int
    requires buf < |s.heap|
  {
    NODE_SIZE * (s.heap[buf].position - 1)
  }

  function Fault(s: State): State {
    s.(fault := true)
  }

  // ----- enqueue -----

  function At(s: State, i: nat, p: Producer): State
    requires i < |s.producers|
  {
    s.(producers := s.producers[i := p])
  }

  function AllocBuffer(s: State, i: nat, buf: nat): State
    requires buf < |s.heap|
  {
    s.(heap := s.heap + [NewBuffer(s.heap[buf].position + 1, Some(buf))],
       h := s.h.(allocator := s.h.allocator + [i]))
  }

  /** The compare-and-swap of `buf->next_` from NULL to `newArr`, when it succeeds. */
  function LinkBuffer(s: State, buf: nat, newArr: nat): State
    requires buf < |s.heap|
  {
    s.(heap := s.heap[buf := s.heap[buf].(next := Some(newArr))],
       h := s.h.(chain := s.h.chain + [newArr]))
  }

  function TakeTicket(s: State, i: nat, value: int): State {
    s.(tail := s.tail + 1, h := s.h.(issued := s.h.issued + [value], owner := s.h.owner + [i]))
  }

  /** One step of producer `i`; `value` is the payload when the step starts an `enqueue`. */
  function ProducerStep(s: State, i: nat, value: int): State
    requires i < |s.producers|
  {
    match s.producers[i]
    case Idle =>
      At(TakeTicket(s, i, value), i, LoadTail(Enqueue(s.tail, value, false)))
    case LoadTail(op) =>
      if s.tailBuf >= |s.heap| then Fault(s)
      else At(s, i, Locate(op, s.tailBuf, Base(s, s.tailBuf)))
    case Locate(op, buf, prevSize) =>
      if op.location < prevSize then
        if buf >= |s.heap| || s.heap[buf].prev.None? then Fault(s)
        else At(s, i, Locate(op.(goBack := true), s.heap[buf].prev.value, prevSize - NODE_SIZE))
      else if op.location < prevSize + NODE_SIZE then
        At(s, i, WriteData(op, buf, op.location - prevSize))
      else
        At(s, i, LoadNext(op, buf))
    case WriteData(op, buf, index) =>
      if !ValidCell(s, buf, index) then Fault(s)
      else At(StoreCell(s, buf, index, Cell(s, buf, index).(data := op.data)), i, SetFlag(op, buf, index))
    case SetFlag(op, buf, index) =>
      if !ValidCell(s, buf, index) then Fault(s)
      else
        At(StoreCell(s, buf, index, Cell(s, buf, index).(isSet := 1)), i,
           if index == 1 && !op.goBack then AllocAhead(buf) else Idle)
    case AllocAhead(buf) =>
      if buf >= |s.heap| then Fault(s)
      else At(AllocBuffer(s, i, buf), i, LinkAhead(buf, |s.heap|))
    case LinkAhead(buf, newArr) =>
      if buf >= |s.heap| then Fault(s)
      else At(if s.heap[buf].next.None? then LinkBuffer(s, buf, newArr) else s, i, Idle)
    case LoadNext(op, buf) =>
      if buf >= |s.heap| then Fault(s)
      else At(s, i, if s.heap[buf].next.None? then Alloc(op, buf) else AdvanceTail(op, buf, s.heap[buf].next.value))
    case Alloc(op, buf) =>
      if buf >= |s.heap| then Fault(s)
      else At(AllocBuffer(s, i, buf), i, Link(op, buf, |s.heap|))
    case Link(op, buf, newArr) =>
      if buf >= |s.heap| then Fault(s)
      else if s.heap[buf].next.None? then At(LinkBuffer(s, buf, newArr), i, StoreTail(op, newArr))
      else At(s, i, LoadTail(op))
    case StoreTail(op, newArr) =>
      At(s.(tailBuf := newArr), i, LoadTail(op))
    case AdvanceTail(op, buf, next) =>
      At(if s.tailBuf == buf then s.(tailBuf := next) else s, i, LoadTail(op))
  }

  // ----- dequeue -----

  function Go(s: State, c: Consumer): State {
    s.(consumer := c)
  }

  function Deliver(s: State, slot: int, value: int): State {
    s.(consumer := Ready, h := s.h.(deliveries := s.h.deliveries + [Delivery(slot, value)]))
  }

  /** `temphead - 1` in 32-bit unsigned arithmetic. */
  function MinusOne(temphead: nat): nat {
    if temphead == 0 then UINT_MAX else temphead - 1
  }

  function Start(s: State): Locals
    requires s.headBuf < |s.heap|
  {
    Locals(s.headBuf, s.heap[s.headBuf].head, false, true, 0, 0, 0, 0, false)
  }

  /** Is the head cell `n` of the head buffer readable? */
  predicate ValidHead(s: State) {
    s.headBuf < |s.heap| && ValidCell(s, s.headBuf, s.heap[s.headBuf].head)
  }

  function HeadFlag(s: State): nat
    requires ValidHead(s)
  {
    Cell(s, s.headBuf, s.heap[s.headBuf].head).isSet
  }

  function LoadHeadStep(s: State): State {
    if s.headBuf >= |s.heap| then Fault(s)
    else if s.heap[s.headBuf].head >= NODE_SIZE then Go(s, LeaveBuffer)
    else if !ValidHead(s) then Fault(s)
    else if HeadFlag(s) == 2 then Go(StoreHead(s, s.headBuf, s.heap[s.headBuf].head + 1), LoadTailBuffer)
    else Go(s, WaitHead(Start(s)))
  }

  function ProbeStep(s: State, l: Locals): State {
    if l.temphead >= NODE_SIZE then Go(s, NextBuffer(l))
    else if !ValidCell(s, l.buf, l.temphead) then Fault(s)
    else
      var l' := l.(tnBuf := l.buf, tnIndex := l.temphead, temphead := l.temphead + 1, retargeted := false);
      if Cell(s, l.buf, l.temphead).isSet == 1 then Go(s, ProbeHead(l')) else Go(s, Recheck(l'))
  }

  function ProbeHeadStep(s: State, l: Locals): State {
    if !ValidHead(s) then Fault(s)
    else if HeadFlag(s) == 0 then
      Go(s, ScanTest(l.(scanBuf := s.headBuf, scanhead := s.heap[s.headBuf].head)))
    else Go(s, Recheck(l))
  }

  function ScanTestStep(s: State, l: Locals): State {
    if l.scanBuf != l.buf then Go(s, ScanStep(l))
    else if l.scanhead >= MinusOne(l.temphead) then Go(s, ScanDone(l))
    else if !ValidHead(s) then Fault(s)
    else if HeadFlag(s) == 0 then Go(s, ScanStep(l))
    else Go(s, ScanDone(l))
  }

  function ScanStepStep(s: State, l: Locals): State {
    if l.scanhead >= NODE_SIZE then
      if l.scanBuf >= |s.heap| || s.heap[l.scanBuf].next.None? || s.heap[l.scanBuf].next.value >= |s.heap| then Fault(s)
      else
        var next := s.heap[l.scanBuf].next.value;
        Go(s, ScanTest(l.(scanBuf := next, scanhead := s.heap[next].head + 1)))
    else if !ValidCell(s, l.scanBuf, l.scanhead) || s.headBuf >= |s.heap| then Fault(s)
    else if Cell(s, l.scanBuf, l.scanhead).isSet == 1 then
      Go(s, ScanTest(l.(temphead := l.scanhead, buf := l.scanBuf, tnBuf := l.scanBuf, tnIndex := l.scanhead,
                        scanBuf := s.headBuf, scanhead := s.heap[s.headBuf].head + 1, retargeted := true)))
    else
      Go(s, ScanTest(l.(scanhead := l.scanhead + 1)))
  }

  /** Does storing 2 into `tn` also move the head of the probed buffer? */
  predicate AdvancesHead(s: State, l: Locals)
    requires l.buf < |s.heap|
  {
    l.moved && MinusOne(l.temphead) == s.heap[l.buf].head
  }

  function MarkTakenStep(s: State, l: Locals, data: int): State {
    if !ValidCell(s, l.tnBuf, l.tnIndex) || l.buf >= |s.heap| then Fault(s)
    else
      var s1 := StoreCell(s, l.tnBuf, l.tnIndex, Cell(s, l.tnBuf, l.tnIndex).(isSet := 2));
      var slot := Base(s, l.tnBuf) + l.tnIndex;
      if AdvancesHead(s, l) then
        var head := s.heap[l.buf].head;
        var lost := if ValidCell(s1, l.buf, head) && Cell(s1, l.buf, head).isSet != 2
                    then [Base(s, l.buf) + head] else [];
        var s2 := StoreHead(s1, l.buf, head + 1);
        Deliver(s2.(h := s2.h.(skipped := s2.h.skipped + lost)), slot, data)
      else
        Deliver(s1, slot, data)
  }

  /**
   The end of a probed buffer. `fold` is the branch that also unlinks the buffer; its
   tests and its move are kept and the unlinking is left out.
   */
  function NextBufferStep(s: State, l: Locals): State {
    if l.temphead < NODE_SIZE then Go(s, WaitHead(l))
    else if l.buf >= |s.heap| then Fault(s)
    else if l.allHandled && l.moved && l.buf == s.tailBuf then Go(s, Ready)
    else if s.heap[l.buf].next.None? then Go(s, Ready)
    else if s.heap[l.buf].next.value >= |s.heap| then Fault(s)
    else
      var next := s.heap[l.buf].next.value;
      Go(s, WaitHead(l.(buf := next, temphead := s.heap[next].head, moved := true, allHandled := true)))
  }

  function TakeHeadStep(s: State): State {
    if !ValidHead(s) then Fault(s)
    else if HeadFlag(s) == 1 then
      var head := s.heap[s.headBuf].head;
      Deliver(StoreHead(s, s.headBuf, head + 1), Base(s, s.headBuf) + head, Cell(s, s.headBuf, head).data)
    else Go(s, LeaveBuffer)
  }

  /** One step of the consumer. */
  function ConsumerStep(s: State): State {
    match s.consumer
    case Ready => Go(s, LoadTailBuffer)
    case LoadTailBuffer =>
      if s.tailBuf >= |s.heap| then Fault(s) else Go(s, CheckTailBuffer(Base(s, s.tailBuf)))
    case CheckTailBuffer(prevSize) =>
      Go(s, if s.headBuf == s.tailBuf then CheckTail(prevSize) else LoadHead)
    case CheckTail(prevSize) =>
      if s.headBuf >= |s.heap| then Fault(s)
      else Go(s, if s.heap[s.headBuf].head == s.tail - prevSize then Ready else LoadHead)
    case LoadHead => LoadHeadStep(s)
    case WaitHead(l) =>
      if !ValidHead(s) then Fault(s)
      else if HeadFlag(s) == 0 then Go(s, Probe(l)).(h := s.h.(sawPending := true))
      else Go(s, TakeHead)
    case Probe(l) => ProbeStep(s, l)
    case ProbeHead(l) => ProbeHeadStep(s, l)
    case ScanTest(l) => ScanTestStep(s, l)
    case ScanStep(l) => ScanStepStep(s, l)
    case ScanDone(l) =>
      if !ValidHead(s) then Fault(s) else Go(s, if HeadFlag(s) == 1 then TakeHead else TakeData(l))
    case TakeData(l) =>
      if !ValidCell(s, l.tnBuf, l.tnIndex) then Fault(s)
      else Go(s, MarkTaken(l, Cell(s, l.tnBuf, l.tnIndex).data))
    case MarkTaken(l, data) => MarkTakenStep(s, l, data)
    case Recheck(l) =>
      if !ValidCell(s, l.tnBuf, l.tnIndex) then Fault(s)
      else
        Go(s, NextBuffer(if Cell(s, l.tnBuf, l.tnIndex).isSet == 0 then l.(allHandled := false) else l))
    case NextBuffer(l) => NextBufferStep(s, l)
    case TakeHead => TakeHeadStep(s)
    case LeaveBuffer =>
      if s.headBuf >= |s.heap| then Fault(s)
      else if s.heap[s.headBuf].head < NODE_SIZE then Go(s, LoadTailBuffer)
      else Go(s, if s.headBuf == s.tailBuf then Ready else EnterNext)
    case EnterNext =>
      if s.headBuf >= |s.heap| then Fault(s)
      else if s.heap[s.headBuf].next.None? then Go(s, Ready)
      else Go(s.(headBuf := s.heap[s.headBuf].next.value), LoadTailBuffer)
  }

  // ----- runs -----

  /** The scheduler's choice: which thread moves, and the payload if it starts an `enqueue`. */
  datatype Action = Produce(thread: nat, value: int) | Consume

  function Step(s: State, a: Action): State {
    match a
    case Produce(i, v) => if i < |s.producers| then ProducerStep(s, i, v) else s
    case Consume => ConsumerStep(s)
  }

  ghost predicate StepAt(states: seq<State>, actions: seq<Action>, k: nat)
    requires k < |actions| && k + 1 < |states|
  {
    states[k + 1] == Step(states[k], actions[k])
  }

  /** `states` is the run of an initially empty queue with `threads` producers under the schedule `actions`. */
  ghost predicate IsRun(threads: nat, states: seq<State>, actions: seq<Action>) {
    && |states| == |actions| + 1
    && states[0] == Init(threads)
    && forall k: nat | k < |actions| :: StepAt(states, actions, k)
  }
}
