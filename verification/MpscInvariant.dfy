/**
 The inductive invariant of the queue, stated on tickets: ticket `L` belongs to cell
 `L % NODE_SIZE` of the linked buffer number `L / NODE_SIZE`.
 */
module MpscInvariant {
  import opened Wrappers
  import opened MpscQueue

  // ----- the chain of linked buffers -----

  /** Buffer number `k` of the chain: its position, both links, and its shape. */
  ghost predicate LinkOk(heap: seq<BufferList>, chain: seq<nat>, k: nat)
    requires k < |chain|
  {
    && chain[k] < |heap|
    && heap[chain[k]].position == k + 1
    && heap[chain[k]].prev == (if k == 0 then None else Some(chain[k - 1]))
    && heap[chain[k]].next == (if k + 1 == |chain| then None else Some(chain[k + 1]))
    && |heap[chain[k]].cells| == NODE_SIZE
    && heap[chain[k]].head <= NODE_SIZE
  }

  ghost predicate ChainOk(heap: seq<BufferList>, chain: seq<nat>) {
    |chain| > 0 && forall k: nat | k < |chain| :: LinkOk(heap, chain, k)
  }

  ghost predicate InChain(heap: seq<BufferList>, chain: seq<nat>, b: nat) {
    b < |heap| && 1 <= heap[b].position <= |chain| && chain[heap[b].position - 1] == b
  }

  // ----- cells by ticket -----

  /** The cell of ticket `L`; a cell of a buffer not linked yet counts as empty. */
  ghost function Slot(heap: seq<BufferList>, chain: seq<nat>, L: nat): Node {
    var k := L / NODE_SIZE;
    if k < |chain| && chain[k] < |heap| && L % NODE_SIZE < |heap[chain[k]].cells|
    then heap[chain[k]].cells[L % NODE_SIZE] else Node(0, 0)
  }

  /** Has the head of its buffer moved past the cell of ticket `L`? */
  ghost predicate Passed(heap: seq<BufferList>, chain: seq<nat>, L: nat) {
    var k := L / NODE_SIZE;
    k < |chain| && chain[k] < |heap| && L % NODE_SIZE < heap[chain[k]].head
  }

  // ----- producers -----

  /** Does the producer still have to publish ticket `L`? */
  ghost predicate Holds(p: Producer, L: nat) {
    match p
    case Idle | AllocAhead(_) | LinkAhead(_, _) => false
    case _ => p.op.location == L
  }

  /** `newArr` is a fresh buffer of thread `i`, meant to follow `buf`, that nobody else knows. */
  ghost predicate Fresh(s: State, i: nat, buf: nat, newArr: nat) {
    && newArr < |s.heap| && newArr < |s.h.allocator| && s.h.allocator[newArr] == i
    && InChain(s.heap, s.h.chain, buf)
    && !InChain(s.heap, s.h.chain, newArr)
    && s.heap[newArr] == NewBuffer(s.heap[buf].position + 1, Some(buf))
  }

  /** The cell a producer is about to write is the one of its ticket. */
  ghost predicate OwnCell(s: State, op: Enqueue, buf: nat, index: int) {
    InChain(s.heap, s.h.chain, buf) && 0 <= index < NODE_SIZE && op.location == Base(s, buf) + index
  }

  ghost predicate LocalOk(s: State, i: nat, p: Producer) {
    match p
    case Idle => true
    case LoadTail(_) => true
    case Locate(_, buf, prevSize) => InChain(s.heap, s.h.chain, buf) && prevSize == Base(s, buf)
    case WriteData(op, buf, index) => OwnCell(s, op, buf, index)
    case SetFlag(op, buf, index) =>
      OwnCell(s, op, buf, index) && Slot(s.heap, s.h.chain, op.location).data == op.data
    case AllocAhead(buf) => InChain(s.heap, s.h.chain, buf)
    case LinkAhead(buf, newArr) => Fresh(s, i, buf, newArr)
    case LoadNext(_, buf) => InChain(s.heap, s.h.chain, buf)
    case Alloc(_, buf) => InChain(s.heap, s.h.chain, buf)
    case Link(_, buf, newArr) => Fresh(s, i, buf, newArr)
    case StoreTail(_, newArr) => InChain(s.heap, s.h.chain, newArr)
    case AdvanceTail(_, buf, next) => InChain(s.heap, s.h.chain, buf) && InChain(s.heap, s.h.chain, next)
  }

  /** A ticket that is held was issued to this thread with this payload, and its cell is still empty. */
  ghost predicate TicketOk(s: State, i: nat, p: Producer) {
    match p
    case Idle | AllocAhead(_) | LinkAhead(_, _) => true
    case _ =>
      && p.op.location < |s.h.issued|
      && p.op.location < |s.h.owner|
      && s.h.owner[p.op.location] == i
      && s.h.issued[p.op.location] == p.op.data
      && Slot(s.heap, s.h.chain, p.op.location).isSet == 0
  }

  ghost predicate ProducerOk(s: State, i: nat)
    requires i < |s.producers|
  {
    LocalOk(s, i, s.producers[i]) && TicketOk(s, i, s.producers[i])
  }

  // ----- cells -----

  /** A cell holds the payload of its ticket once it is set; an empty one of an issued ticket has a producer at work. */
  ghost predicate SlotOk(s: State, L: nat) {
    var c := Slot(s.heap, s.h.chain, L);
    && c.isSet <= 2
    && (c.isSet != 0 ==> L < |s.h.issued| && c.data == s.h.issued[L])
    && (c.isSet == 0 && L < |s.h.owner| ==>
          s.h.owner[L] < |s.producers| && Holds(s.producers[s.h.owner[L]], L))
  }

  ghost predicate SharedOk(s: State) {
    && !s.fault
    && ChainOk(s.heap, s.h.chain)
    && InChain(s.heap, s.h.chain, s.tailBuf)
    && InChain(s.heap, s.h.chain, s.headBuf)
    && |s.h.allocator| == |s.heap|
    && |s.h.issued| == |s.h.owner| == s.tail
  }

  ghost predicate ProducersOk(s: State) {
    forall i: nat | i < |s.producers| :: ProducerOk(s, i)
  }

  ghost predicate SlotsOk(s: State) {
    forall L: nat :: SlotOk(s, L)
  }

  // ----- the consumer -----

  /** The head cell exists and is empty or set. */
  ghost predicate HeadOpen(s: State) {
    && InChain(s.heap, s.h.chain, s.headBuf)
    && s.heap[s.headBuf].head < NODE_SIZE
    && ValidHead(s)
    && HeadFlag(s) <= 1
  }

  /** The probe stands in a linked buffer, not before the head buffer and not below that buffer's head. */
  ghost predicate ProbeOk(s: State, l: Locals) {
    && HeadOpen(s)
    && InChain(s.heap, s.h.chain, l.buf)
    && s.heap[s.headBuf].position <= s.heap[l.buf].position
    && s.heap[l.buf].head <= l.temphead <= NODE_SIZE
  }

  ghost predicate CellOk(s: State, l: Locals) {
    && InChain(s.heap, s.h.chain, l.tnBuf)
    && l.tnBuf == l.buf
    && l.tnIndex < NODE_SIZE
    && s.heap[l.tnBuf].head <= l.tnIndex
    && l.temphead == (if l.retargeted then l.tnIndex else l.tnIndex + 1)
    && ValidCell(s, l.tnBuf, l.tnIndex)
  }

  /** The chosen cell is set, and only a head cell can have been chosen at index 0 by the scan. */
  ghost predicate ChosenOk(s: State, l: Locals) {
    && ProbeOk(s, l)
    && CellOk(s, l)
    && Cell(s, l.tnBuf, l.tnIndex).isSet == 1
    && (l.retargeted && l.buf != s.headBuf ==> l.temphead >= 1)
  }

  ghost predicate ScanOk(s: State, l: Locals) {
    && ChosenOk(s, l)
    && InChain(s.heap, s.h.chain, l.scanBuf)
    && s.heap[s.headBuf].position <= s.heap[l.scanBuf].position <= s.heap[l.buf].position
    && s.heap[l.scanBuf].head <= l.scanhead
    && (l.scanBuf != s.headBuf ==> l.scanhead >= 1)
  }

  ghost predicate ConsumerOk(s: State) {
    match s.consumer
    case Ready | LoadTailBuffer | CheckTailBuffer(_) | CheckTail(_) | LoadHead | LeaveBuffer => true
    case EnterNext => s.headBuf < |s.heap| && s.heap[s.headBuf].head >= NODE_SIZE
    case WaitHead(l) => ProbeOk(s, l)
    case Probe(l) => ProbeOk(s, l)
    case ProbeHead(l) => ChosenOk(s, l) && !l.retargeted
    case ScanTest(l) => ScanOk(s, l)
    case ScanStep(l) => ScanOk(s, l) && (l.scanBuf == l.buf ==> l.scanhead + 1 < l.temphead)
    case ScanDone(l) => ChosenOk(s, l)
    case TakeData(l) => ChosenOk(s, l)
    case MarkTaken(l, data) => ChosenOk(s, l) && Cell(s, l.tnBuf, l.tnIndex).data == data
    case Recheck(l) => ProbeOk(s, l) && CellOk(s, l) && !l.retargeted
    case NextBuffer(l) => ProbeOk(s, l)
    case TakeHead => HeadOpen(s) && HeadFlag(s) == 1
  }

  // ----- deliveries -----

  ghost predicate DeliveryOk(s: State, j: nat)
    requires j < |s.h.deliveries|
  {
    var d := s.h.deliveries[j];
    && 0 <= d.slot < |s.h.issued|
    && d.value == s.h.issued[d.slot]
    && Slot(s.heap, s.h.chain, d.slot).isSet != 0
    && (Slot(s.heap, s.h.chain, d.slot).isSet == 2 || Passed(s.heap, s.h.chain, d.slot))
  }

  ghost predicate Delivered(s: State, L: int) {
    exists j: nat :: j < |s.h.deliveries| && s.h.deliveries[j].slot == L
  }

  /** Handled cells were delivered; the skipped cells are those below a head that were not delivered. */
  ghost predicate AccountOk(s: State, L: nat) {
    && (Slot(s.heap, s.h.chain, L).isSet == 2 ==> Delivered(s, L))
    && (L in s.h.skipped <==> Passed(s.heap, s.h.chain, L) && !Delivered(s, L))
  }

  ghost predicate DeliveriesOk(s: State) {
    && (forall j: nat | j < |s.h.deliveries| :: DeliveryOk(s, j))
    && (forall j: nat, k: nat | j < k < |s.h.deliveries| :: s.h.deliveries[j].slot != s.h.deliveries[k].slot)
  }

  ghost predicate AccountsOk(s: State) {
    forall L: nat :: AccountOk(s, L)
  }

  // ----- in-order runs -----

  /** Number of the head cell. */
  ghost function HeadSlot(s: State): int
    requires s.headBuf < |s.heap|
  {
    Base(s, s.headBuf) + s.heap[s.headBuf].head
  }

  ghost predicate Untouched(s: State, L: nat) {
    && Slot(s.heap, s.h.chain, L).isSet <= 1
    && (s.headBuf < |s.heap| && L >= HeadSlot(s) ==> !Passed(s.heap, s.h.chain, L))
  }

  /** The program counters that an in-order run uses. */
  ghost predicate InOrderPc(c: Consumer) {
    c.Ready? || c.LoadTailBuffer? || c.CheckTailBuffer? || c.CheckTail? || c.LoadHead?
    || c.WaitHead? || c.TakeHead? || c.LeaveBuffer? || c.EnterNext?
  }

  /** As long as every head cell was set when looked at, cells leave in ticket order. */
  ghost predicate InOrder(s: State) {
    !s.h.sawPending ==>
      && s.headBuf < |s.heap|
      && |s.h.deliveries| == HeadSlot(s)
      && (forall j: nat | j < |s.h.deliveries| :: s.h.deliveries[j].slot == j)
      && (forall L: nat :: Untouched(s, L))
      && InOrderPc(s.consumer)
  }

  ghost predicate Inv(s: State) {
    && SharedOk(s) && ProducersOk(s) && SlotsOk(s) && ConsumerOk(s)
    && DeliveriesOk(s) && AccountsOk(s) && InOrder(s)
  }

  // ----- facts about memory updates -----

  /** A cell of a linked buffer is the cell of its ticket. */
  lemma SlotIsCell(s: State, b: nat, index: nat, L: nat)
    requires ChainOk(s.heap, s.h.chain) && InChain(s.heap, s.h.chain, b)
    requires index < NODE_SIZE && L == Base(s, b) + index
    ensures L / NODE_SIZE == s.heap[b].position - 1 && L % NODE_SIZE == index
    ensures ValidCell(s, b, index) && Slot(s.heap, s.h.chain, L) == Cell(s, b, index)
    ensures Passed(s.heap, s.h.chain, L) <==> index < s.heap[b].head
  {
    assert LinkOk(s.heap, s.h.chain, s.heap[b].position - 1);
  }

  /** Storing into the cell of ticket `L` keeps the chain and every other ticket's cell. */
  lemma StoreCellFrame(s: State, b: nat, index: nat, n: Node, L: nat, s': State)
    requires ChainOk(s.heap, s.h.chain) && InChain(s.heap, s.h.chain, b)
    requires index < NODE_SIZE && L == Base(s, b) + index
    requires ValidCell(s, b, index) && s' == StoreCell(s, b, index, n)
    ensures ChainOk(s'.heap, s'.h.chain)
    ensures forall c: nat :: InChain(s.heap, s.h.chain, c) <==> InChain(s'.heap, s'.h.chain, c)
    ensures forall M: nat :: Slot(s'.heap, s'.h.chain, M) == if M == L then n else Slot(s.heap, s.h.chain, M)
    ensures forall M: nat :: Passed(s'.heap, s'.h.chain, M) <==> Passed(s.heap, s.h.chain, M)
  {
    SlotIsCell(s, b, index, L);
    forall k: nat | k < |s'.h.chain| ensures LinkOk(s'.heap, s'.h.chain, k) {
      assert LinkOk(s.heap, s.h.chain, k);
    }
    forall M: nat
      ensures Slot(s'.heap, s'.h.chain, M) == if M == L then n else Slot(s.heap, s.h.chain, M)
      ensures Passed(s'.heap, s'.h.chain, M) <==> Passed(s.heap, s.h.chain, M)
    {
      var k := M / NODE_SIZE;
      if k < |s.h.chain| {
        assert LinkOk(s.heap, s.h.chain, k);
      }
    }
  }

  /** Moving a head keeps the chain, every cell, and every other buffer's head. */
  lemma StoreHeadFrame(s: State, b: nat, L: nat, s': State)
    requires ChainOk(s.heap, s.h.chain) && InChain(s.heap, s.h.chain, b)
    requires s.heap[b].head < NODE_SIZE && L == Base(s, b) + s.heap[b].head
    requires s' == StoreHead(s, b, s.heap[b].head + 1)
    ensures ChainOk(s'.heap, s'.h.chain)
    ensures forall c: nat :: InChain(s.heap, s.h.chain, c) <==> InChain(s'.heap, s'.h.chain, c)
    ensures forall M: nat :: Slot(s'.heap, s'.h.chain, M) == Slot(s.heap, s.h.chain, M)
    ensures forall M: nat :: Passed(s'.heap, s'.h.chain, M) <==> Passed(s.heap, s.h.chain, M) || M == L
  {
    SlotIsCell(s, b, s.heap[b].head, L);
    forall k: nat | k < |s'.h.chain| ensures LinkOk(s'.heap, s'.h.chain, k) {
      assert LinkOk(s.heap, s.h.chain, k);
    }
    forall M: nat
      ensures Slot(s'.heap, s'.h.chain, M) == Slot(s.heap, s.h.chain, M)
      ensures Passed(s'.heap, s'.h.chain, M) <==> Passed(s.heap, s.h.chain, M) || M == L
    {
      var k := M / NODE_SIZE;
      if k < |s.h.chain| {
        assert LinkOk(s.heap, s.h.chain, k);
      }
    }
  }

  /** Allocating a private buffer changes nothing that is linked. */
  lemma AllocFrame(s: State, i: nat, b: nat, s': State)
    requires ChainOk(s.heap, s.h.chain) && b < |s.heap|
    requires s' == AllocBuffer(s, i, b)
    ensures ChainOk(s'.heap, s'.h.chain)
    ensures forall c: nat :: InChain(s.heap, s.h.chain, c) <==> InChain(s'.heap, s'.h.chain, c)
    ensures forall M: nat :: Slot(s'.heap, s'.h.chain, M) == Slot(s.heap, s.h.chain, M)
    ensures forall M: nat :: Passed(s'.heap, s'.h.chain, M) <==> Passed(s.heap, s.h.chain, M)
  {
    forall k: nat | k < |s'.h.chain| ensures LinkOk(s'.heap, s'.h.chain, k) {
      assert LinkOk(s.heap, s.h.chain, k);
    }
    if s.heap[b].position < |s.h.chain| {
      assert LinkOk(s.heap, s.h.chain, s.heap[b].position);
    }
    forall M: nat
      ensures Slot(s'.heap, s'.h.chain, M) == Slot(s.heap, s.h.chain, M)
      ensures Passed(s'.heap, s'.h.chain, M) <==> Passed(s.heap, s.h.chain, M)
    {
      var k := M / NODE_SIZE;
      if k < |s.h.chain| {
        assert LinkOk(s.heap, s.h.chain, k);
      }
    }
  }

  /** A successful link appends the private buffer to the chain; all its cells are empty and its head is 0. */
  lemma LinkFrame(s: State, i: nat, b: nat, newArr: nat, s': State)
    requires ChainOk(s.heap, s.h.chain) && Fresh(s, i, b, newArr)
    requires s.heap[b].next.None? && s' == LinkBuffer(s, b, newArr)
    ensures ChainOk(s'.heap, s'.h.chain)
    ensures forall c: nat :: InChain(s'.heap, s'.h.chain, c) <==> InChain(s.heap, s.h.chain, c) || c == newArr
    ensures forall M: nat :: Slot(s'.heap, s'.h.chain, M) == Slot(s.heap, s.h.chain, M)
    ensures forall M: nat :: Passed(s'.heap, s'.h.chain, M) <==> Passed(s.heap, s.h.chain, M)
  {
    var last := |s.h.chain| - 1;
    assert LinkOk(s.heap, s.h.chain, s.heap[b].position - 1);
    assert s.heap[b].position == |s.h.chain|;
    forall k: nat | k < |s'.h.chain| ensures LinkOk(s'.heap, s'.h.chain, k) {
      if k <= last {
        assert LinkOk(s.heap, s.h.chain, k);
      }
    }
    forall M: nat
      ensures Slot(s'.heap, s'.h.chain, M) == Slot(s.heap, s.h.chain, M)
      ensures Passed(s'.heap, s'.h.chain, M) <==> Passed(s.heap, s.h.chain, M)
    {
      var k := M / NODE_SIZE;
      if k <= last {
        assert LinkOk(s.heap, s.h.chain, k);
      }
    }
  }

  lemma InitInv(threads: nat)
    ensures Inv(Init(threads))
  {
    var s := Init(threads);
    assert LinkOk(s.heap, s.h.chain, 0);
    forall L: nat ensures SlotOk(s, L) && AccountOk(s, L) && Untouched(s, L) {
      assert Slot(s.heap, s.h.chain, L) == Node(0, 0);
    }
  }
}
