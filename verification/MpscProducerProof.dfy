/** Every producer step preserves the invariant. */
module MpscProducerProof {
  import opened Wrappers
  import opened MpscQueue
  import opened MpscInvariant

  /** Two states with the same cells, heads, head buffer and deliveries are in order together. */
  lemma InOrderSame(s: State, s': State)
    requires InOrder(s) && s.headBuf < |s.heap| && s'.headBuf < |s'.heap|
    requires s'.h.sawPending == s.h.sawPending && s'.h.deliveries == s.h.deliveries && s'.consumer == s.consumer
    requires HeadSlot(s') == HeadSlot(s)
    requires forall M: nat ::
      Slot(s'.heap, s'.h.chain, M).isSet <= 1 || Slot(s'.heap, s'.h.chain, M) == Slot(s.heap, s.h.chain, M)
    requires forall M: nat :: Passed(s'.heap, s'.h.chain, M) <==> Passed(s.heap, s.h.chain, M)
    ensures InOrder(s')
  {
    if !s.h.sawPending {
      forall L: nat ensures Untouched(s', L) {
        assert Untouched(s, L);
      }
    }
  }

  ghost function Issued(s: State, i: nat, value: int): State
    requires i < |s.producers|
  {
    At(TakeTicket(s, i, value), i, LoadTail(Enqueue(s.tail, value, false)))
  }

  lemma TicketConsumer(s: State, i: nat, value: int, s': State)
    requires ConsumerOk(s) && i < |s.producers| && s' == Issued(s, i, value)
    ensures ConsumerOk(s')
  {
  }

  lemma TicketProducers(s: State, i: nat, value: int, s': State)
    requires SharedOk(s) && ProducersOk(s) && i < |s.producers| && s.producers[i].Idle?
    requires s' == Issued(s, i, value) && Slot(s.heap, s.h.chain, s.tail).isSet == 0
    ensures SharedOk(s') && ProducersOk(s')
  {
    forall j: nat | j < |s'.producers| ensures ProducerOk(s', j) {
      assert ProducerOk(s, j);
    }
  }

  lemma TicketSlots(s: State, i: nat, value: int, s': State)
    requires SharedOk(s) && SlotsOk(s) && i < |s.producers| && s.producers[i].Idle?
    requires s' == Issued(s, i, value)
    ensures SlotsOk(s')
  {
    forall L: nat ensures SlotOk(s', L) {
      assert SlotOk(s, L);
    }
  }

  lemma TicketDeliveries(s: State, i: nat, value: int, s': State)
    requires SharedOk(s) && DeliveriesOk(s) && AccountsOk(s) && InOrder(s) && i < |s.producers| && s.producers[i].Idle?
    requires s' == Issued(s, i, value)
    ensures DeliveriesOk(s') && AccountsOk(s') && InOrder(s')
  {
    forall L: nat ensures AccountOk(s', L) {
      assert AccountOk(s, L);
      assert Delivered(s, L) <==> Delivered(s', L);
    }
    forall j: nat | j < |s'.h.deliveries| ensures DeliveryOk(s', j) {
      assert DeliveryOk(s, j);
    }
    InOrderSame(s, s');
  }

  /** `fetch_add`: a new ticket is issued and held by producer `i`. */
  lemma TicketStep(s: State, i: nat, value: int, s': State)
    requires Inv(s) && i < |s.producers| && s.producers[i].Idle?
    requires s' == Issued(s, i, value)
    ensures Inv(s')
  {
    assert SlotOk(s, s.tail);
    TicketConsumer(s, i, value, s');
    TicketProducers(s, i, value, s');
    TicketSlots(s, i, value, s');
    TicketDeliveries(s, i, value, s');
  }

  // ----- growing the heap or the chain -----

  /** The memory only grew: everything known of old buffers and cells still holds. */
  ghost predicate Grew(s: State, s': State) {
    && |s.heap| <= |s'.heap|
    && (forall c: nat :: InChain(s.heap, s.h.chain, c) ==> InChain(s'.heap, s'.h.chain, c))
    && (forall c: nat | c < |s.heap| ::
          && s'.heap[c].position == s.heap[c].position && s'.heap[c].head == s.heap[c].head
          && s'.heap[c].cells == s.heap[c].cells)
    && (forall M: nat :: Slot(s'.heap, s'.h.chain, M) == Slot(s.heap, s.h.chain, M))
    && (forall M: nat :: Passed(s'.heap, s'.h.chain, M) <==> Passed(s.heap, s.h.chain, M))
    && s'.headBuf == s.headBuf && s'.consumer == s.consumer && s'.tail == s.tail
    && s'.h == s.h.(chain := s'.h.chain, allocator := s'.h.allocator)
  }

  lemma GrewProbe(s: State, s': State, l: Locals)
    requires Grew(s, s') && ProbeOk(s, l)
    ensures ProbeOk(s', l) && (CellOk(s, l) ==> CellOk(s', l))
  {
  }

  lemma GrewChosen(s: State, s': State, l: Locals)
    requires Grew(s, s') && ChosenOk(s, l)
    ensures ChosenOk(s', l) && Cell(s', l.tnBuf, l.tnIndex) == Cell(s, l.tnBuf, l.tnIndex)
  {
  }

  lemma GrewScan(s: State, s': State, l: Locals)
    requires Grew(s, s') && ScanOk(s, l)
    ensures ScanOk(s', l)
  {
    GrewChosen(s, s', l);
  }

  lemma GrewProbing(s: State, s': State)
    requires Grew(s, s') && ConsumerOk(s)
    requires s.consumer.WaitHead? || s.consumer.Probe? || s.consumer.Recheck? || s.consumer.NextBuffer?
    ensures ConsumerOk(s')
  {
    GrewProbe(s, s', s.consumer.l);
  }

  lemma GrewScanning(s: State, s': State)
    requires Grew(s, s') && ConsumerOk(s) && (s.consumer.ScanTest? || s.consumer.ScanStep?)
    ensures ConsumerOk(s')
  {
    GrewScan(s, s', s.consumer.l);
  }

  lemma GrewTaking(s: State, s': State)
    requires Grew(s, s') && ConsumerOk(s)
    requires s.consumer.ProbeHead? || s.consumer.ScanDone? || s.consumer.TakeData? || s.consumer.MarkTaken?
    ensures ConsumerOk(s')
  {
    GrewChosen(s, s', s.consumer.l);
  }

  lemma GrewConsumer(s: State, s': State)
    requires Grew(s, s') && ConsumerOk(s) && InChain(s.heap, s.h.chain, s.headBuf)
    ensures ConsumerOk(s')
  {
    if s.consumer.WaitHead? || s.consumer.Probe? || s.consumer.Recheck? || s.consumer.NextBuffer? {
      GrewProbing(s, s');
    } else if s.consumer.ScanTest? || s.consumer.ScanStep? {
      GrewScanning(s, s');
    } else if s.consumer.ProbeHead? || s.consumer.ScanDone? || s.consumer.TakeData? || s.consumer.MarkTaken? {
      GrewTaking(s, s');
    }
  }

  lemma GrewDeliveries(s: State, s': State)
    requires Grew(s, s') && DeliveriesOk(s) && AccountsOk(s)
    ensures DeliveriesOk(s') && AccountsOk(s')
  {
    forall j: nat | j < |s'.h.deliveries| ensures DeliveryOk(s', j) {
      assert DeliveryOk(s, j);
    }
    forall L: nat ensures AccountOk(s', L) {
      assert AccountOk(s, L);
      assert Delivered(s, L) ==> Delivered(s', L);
    }
  }

  lemma GrewSlots(s: State, i: nat, s': State)
    requires Grew(s, s') && SlotsOk(s)
    requires i < |s.producers| && i < |s'.producers|
    requires s'.producers == s.producers[i := s'.producers[i]]
    requires forall L: nat :: Holds(s.producers[i], L) ==> Holds(s'.producers[i], L)
    ensures SlotsOk(s')
  {
    forall L: nat ensures SlotOk(s', L) {
      assert SlotOk(s, L);
    }
  }

  /** The parts of the invariant that a growing step of producer `i` keeps. */
  lemma GrewKeeps(s: State, i: nat, s': State)
    requires Inv(s) && Grew(s, s') && SharedOk(s')
    requires i < |s.producers| && i < |s'.producers|
    requires s'.producers == s.producers[i := s'.producers[i]]
    requires forall L: nat :: Holds(s.producers[i], L) ==> Holds(s'.producers[i], L)
    requires ProducersOk(s')
    ensures Inv(s')
  {
    GrewConsumer(s, s');
    GrewDeliveries(s, s');
    GrewSlots(s, i, s');
    InOrderSame(s, s');
  }

  lemma AllocStep(s: State, i: nat, value: int, s': State)
    requires Inv(s) && i < |s.producers| && (s.producers[i].AllocAhead? || s.producers[i].Alloc?)
    requires s' == ProducerStep(s, i, value)
    ensures Inv(s')
  {
    assert ProducerOk(s, i);
    var buf := s.producers[i].buf;
    var s1 := AllocBuffer(s, i, buf);
    AllocFrame(s, i, buf, s1);
    assert Grew(s, s');
    forall j: nat | j < |s'.producers| ensures ProducerOk(s', j) {
      assert ProducerOk(s, j);
      if j == i {
        assert !InChain(s.heap, s.h.chain, |s.heap|);
      } else {
        AllocOther(s, i, buf, j, s');
      }
    }
    GrewKeeps(s, i, s');
  }

  lemma AllocOther(s: State, i: nat, buf: nat, j: nat, s': State)
    requires SharedOk(s) && j < |s.producers| && ProducerOk(s, j) && buf < |s.heap|
    requires j < |s'.producers| && s'.producers[j] == s.producers[j]
    requires s'.heap == AllocBuffer(s, i, buf).heap && s'.h == AllocBuffer(s, i, buf).h
    requires Grew(s, s')
    requires forall c: nat :: InChain(s.heap, s.h.chain, c) <==> InChain(s'.heap, s'.h.chain, c)
    ensures ProducerOk(s', j)
  {
  }

  lemma LinkStep(s: State, i: nat, value: int, s': State)
    requires Inv(s) && i < |s.producers| && (s.producers[i].LinkAhead? || s.producers[i].Link?)
    requires s.producers[i].buf < |s.heap| && s.heap[s.producers[i].buf].next.None?
    requires s' == ProducerStep(s, i, value)
    ensures Inv(s')
  {
    assert ProducerOk(s, i);
    var buf, newArr := s.producers[i].buf, s.producers[i].newArr;
    var s1 := LinkBuffer(s, buf, newArr);
    LinkFrame(s, i, buf, newArr, s1);
    assert Grew(s, s');
    forall j: nat | j < |s'.producers| ensures ProducerOk(s', j) {
      assert ProducerOk(s, j);
      if j != i {
        LinkOther(s, i, buf, newArr, j, s');
      }
    }
    GrewKeeps(s, i, s');
  }

  lemma LinkOther(s: State, i: nat, buf: nat, newArr: nat, j: nat, s': State)
    requires SharedOk(s) && j < |s.producers| && j != i && ProducerOk(s, j) && Fresh(s, i, buf, newArr)
    requires j < |s'.producers| && s'.producers[j] == s.producers[j]
    requires s'.heap == LinkBuffer(s, buf, newArr).heap && s'.h == LinkBuffer(s, buf, newArr).h
    requires Grew(s, s')
    requires forall c: nat :: InChain(s'.heap, s'.h.chain, c) <==> InChain(s.heap, s.h.chain, c) || c == newArr
    ensures ProducerOk(s', j)
  {
  }

  // ----- writing a cell -----

  /** Producer `i` wrote its own empty cell: the data, or the data's flag from 0 to 1. */
  ghost predicate Wrote(s: State, i: nat, buf: nat, index: nat, L: nat, n: Node, s': State) {
    && i < |s.producers| && index < NODE_SIZE
    && InChain(s.heap, s.h.chain, buf) && ValidCell(s, buf, index) && L == Base(s, buf) + index
    && Holds(s.producers[i], L)
    && s'.heap == StoreCell(s, buf, index, n).heap
    && |s'.producers| == |s.producers|
    && s' == At(StoreCell(s, buf, index, n), i, s'.producers[i])
    && n.isSet <= 1
  }

  lemma WroteFacts(s: State, i: nat, buf: nat, index: nat, L: nat, n: Node, s': State)
    requires Inv(s) && Wrote(s, i, buf, index, L, n, s')
    ensures SharedOk(s')
    ensures Cell(s, buf, index) == Slot(s.heap, s.h.chain, L) && Cell(s, buf, index).isSet == 0
    ensures L < |s.h.owner| && s.h.owner[L] == i && L < |s.h.issued|
    ensures forall c: nat :: InChain(s.heap, s.h.chain, c) <==> InChain(s'.heap, s'.h.chain, c)
    ensures forall M: nat :: Slot(s'.heap, s'.h.chain, M) == if M == L then n else Slot(s.heap, s.h.chain, M)
    ensures forall M: nat :: Passed(s'.heap, s'.h.chain, M) <==> Passed(s.heap, s.h.chain, M)
  {
    assert ProducerOk(s, i);
    SlotIsCell(s, buf, index, L);
    StoreCellFrame(s, buf, index, n, L, StoreCell(s, buf, index, n));
  }

  lemma WroteProducers(s: State, i: nat, buf: nat, index: nat, L: nat, n: Node, s': State)
    requires Inv(s) && Wrote(s, i, buf, index, L, n, s')
    requires ProducerOk(s', i)
    ensures ProducersOk(s')
  {
    WroteFacts(s, i, buf, index, L, n, s');
    forall j: nat | j < |s'.producers| ensures ProducerOk(s', j) {
      assert ProducerOk(s, j);
      if j != i {
        WroteOther(s, i, buf, index, L, n, j, s');
      }
    }
  }

  lemma WroteOther(s: State, i: nat, buf: nat, index: nat, L: nat, n: Node, j: nat, s': State)
    requires SharedOk(s) && Wrote(s, i, buf, index, L, n, s')
    requires j < |s.producers| && j != i && ProducerOk(s, j)
    requires L < |s.h.owner| && s.h.owner[L] == i
    requires forall c: nat :: InChain(s.heap, s.h.chain, c) <==> InChain(s'.heap, s'.h.chain, c)
    requires forall M: nat :: Slot(s'.heap, s'.h.chain, M) == if M == L then n else Slot(s.heap, s.h.chain, M)
    ensures ProducerOk(s', j)
  {
  }

  /** Filling an empty cell does not disturb what the consumer knows. */
  lemma WroteHead(s: State, buf: nat, index: nat, n: Node, s': State)
    requires ValidCell(s, buf, index) && Cell(s, buf, index).isSet == 0 && n.isSet <= 1
    requires s'.heap == StoreCell(s, buf, index, n).heap && s'.h.chain == s.h.chain && s'.headBuf == s.headBuf
    requires HeadOpen(s)
    ensures HeadOpen(s') && (HeadFlag(s) == 1 ==> HeadFlag(s') == 1)
  {
  }

  lemma WroteChosen(s: State, buf: nat, index: nat, n: Node, l: Locals, s': State)
    requires ValidCell(s, buf, index) && Cell(s, buf, index).isSet == 0 && n.isSet <= 1
    requires s'.heap == StoreCell(s, buf, index, n).heap && s'.h.chain == s.h.chain && s'.headBuf == s.headBuf
    requires ProbeOk(s, l)
    ensures ProbeOk(s', l)
    ensures CellOk(s, l) ==> CellOk(s', l)
    ensures ChosenOk(s, l) ==> ChosenOk(s', l) && Cell(s', l.tnBuf, l.tnIndex) == Cell(s, l.tnBuf, l.tnIndex)
    ensures ScanOk(s, l) ==> ScanOk(s', l)
  {
    WroteHead(s, buf, index, n, s');
  }

  lemma WroteConsumer(s: State, buf: nat, index: nat, n: Node, s': State)
    requires ValidCell(s, buf, index) && Cell(s, buf, index).isSet == 0 && n.isSet <= 1
    requires s'.heap == StoreCell(s, buf, index, n).heap && s'.h.chain == s.h.chain && s'.headBuf == s.headBuf
    requires s'.consumer == s.consumer && ConsumerOk(s)
    ensures ConsumerOk(s')
  {
    match s.consumer
    case Ready | LoadTailBuffer | CheckTailBuffer(_) | CheckTail(_) | LoadHead | LeaveBuffer | EnterNext =>
    case TakeHead => WroteHead(s, buf, index, n, s');
    case _ => WroteChosen(s, buf, index, n, s.consumer.l, s');
  }

  lemma WroteSlots(s: State, i: nat, buf: nat, index: nat, L: nat, n: Node, s': State)
    requires Inv(s) && Wrote(s, i, buf, index, L, n, s')
    requires if n.isSet == 0 then Holds(s'.producers[i], L) else L < |s.h.issued| && n.data == s.h.issued[L]
    ensures SlotsOk(s')
  {
    WroteFacts(s, i, buf, index, L, n, s');
    assert ProducerOk(s, i);
    forall M: nat ensures SlotOk(s', M) {
      assert SlotOk(s, M);
    }
  }

  lemma WroteDeliveries(s: State, i: nat, buf: nat, index: nat, L: nat, n: Node, s': State)
    requires Inv(s) && Wrote(s, i, buf, index, L, n, s')
    ensures DeliveriesOk(s') && AccountsOk(s') && InOrder(s')
  {
    WroteFacts(s, i, buf, index, L, n, s');
    forall j: nat | j < |s'.h.deliveries| ensures DeliveryOk(s', j) {
      assert DeliveryOk(s, j);
    }
    forall M: nat ensures AccountOk(s', M) {
      assert AccountOk(s, M);
      assert Delivered(s, M) ==> Delivered(s', M);
    }
    InOrderSame(s, s');
  }

  lemma WriteStep(s: State, i: nat, value: int, s': State)
    requires Inv(s) && i < |s.producers| && s.producers[i].WriteData?
    requires s' == ProducerStep(s, i, value)
    ensures Inv(s')
  {
    assert ProducerOk(s, i);
    var WriteData(op, buf, index) := s.producers[i];
    SlotIsCell(s, buf, index, op.location);
    var n := Cell(s, buf, index).(data := op.data);
    assert Wrote(s, i, buf, index, op.location, n, s');
    WroteFacts(s, i, buf, index, op.location, n, s');
    WroteProducers(s, i, buf, index, op.location, n, s');
    WroteConsumer(s, buf, index, n, s');
    WroteSlots(s, i, buf, index, op.location, n, s');
    WroteDeliveries(s, i, buf, index, op.location, n, s');
  }

  lemma FlagStep(s: State, i: nat, value: int, s': State)
    requires Inv(s) && i < |s.producers| && s.producers[i].SetFlag?
    requires s' == ProducerStep(s, i, value)
    ensures Inv(s')
  {
    assert ProducerOk(s, i);
    var SetFlag(op, buf, index) := s.producers[i];
    SlotIsCell(s, buf, index, op.location);
    var n := Cell(s, buf, index).(isSet := 1);
    assert Wrote(s, i, buf, index, op.location, n, s');
    WroteFacts(s, i, buf, index, op.location, n, s');
    WroteProducers(s, i, buf, index, op.location, n, s');
    WroteConsumer(s, buf, index, n, s');
    WroteSlots(s, i, buf, index, op.location, n, s');
    WroteDeliveries(s, i, buf, index, op.location, n, s');
  }

  // ----- steps that touch no cell and no link -----

  /** A step that moves only producer `i`'s program counter, and possibly `tail_of_queue_` within the chain. */
  lemma LocalStep(s: State, i: nat, t: nat, p: Producer, s': State)
    requires Inv(s) && i < |s.producers|
    requires InChain(s.heap, s.h.chain, t)
    requires s' == At(s.(tailBuf := t), i, p)
    requires LocalOk(s, i, p) && TicketOk(s, i, p)
    requires forall L: nat :: Holds(s.producers[i], L) ==> Holds(p, L)
    ensures Inv(s')
  {
    assert ProducerOk(s, i);
    assert Grew(s, s');
    LocalProducers(s, i, t, p, s');
    GrewKeeps(s, i, s');
  }

  lemma LocalProducers(s: State, i: nat, t: nat, p: Producer, s': State)
    requires SharedOk(s) && ProducersOk(s) && i < |s.producers| && InChain(s.heap, s.h.chain, t)
    requires s' == At(s.(tailBuf := t), i, p) && LocalOk(s, i, p) && TicketOk(s, i, p)
    ensures SharedOk(s') && ProducersOk(s')
  {
    forall j: nat | j < |s'.producers| ensures ProducerOk(s', j) {
      assert ProducerOk(s, j);
    }
  }

  /** The walk over `prev_` stays inside the chain: a location below `prevSize` means there is a previous buffer. */
  lemma WalkStep(s: State, i: nat, value: int, s': State)
    requires Inv(s) && i < |s.producers| && s.producers[i].Locate?
    requires s' == ProducerStep(s, i, value)
    ensures Inv(s')
  {
    assert ProducerOk(s, i);
    var Locate(op, buf, prevSize) := s.producers[i];
    assert LinkOk(s.heap, s.h.chain, s.heap[buf].position - 1);
    if op.location < prevSize {
      assert LinkOk(s.heap, s.h.chain, s.heap[buf].position - 2);
    }
    LocalStep(s, i, s.tailBuf, s'.producers[i], s');
  }

  lemma QuietStep(s: State, i: nat, value: int, s': State)
    requires Inv(s) && i < |s.producers|
    requires var p := s.producers[i]; p.LoadTail? || p.LoadNext? || p.StoreTail? || p.AdvanceTail?
    requires s' == ProducerStep(s, i, value)
    ensures Inv(s')
  {
    assert ProducerOk(s, i);
    if s.producers[i].LoadNext? {
      var k := s.heap[s.producers[i].buf].position - 1;
      assert LinkOk(s.heap, s.h.chain, k);
      if k + 1 < |s.h.chain| {
        assert LinkOk(s.heap, s.h.chain, k + 1);
      }
    }
    LocalStep(s, i, s'.tailBuf, s'.producers[i], s');
  }

  lemma FailedLinkStep(s: State, i: nat, value: int, s': State)
    requires Inv(s) && i < |s.producers| && (s.producers[i].LinkAhead? || s.producers[i].Link?)
    requires s.producers[i].buf < |s.heap| && s.heap[s.producers[i].buf].next.Some?
    requires s' == ProducerStep(s, i, value)
    ensures Inv(s')
  {
    assert ProducerOk(s, i);
    LocalStep(s, i, s.tailBuf, s'.producers[i], s');
  }

  lemma ProducerStepInv(s: State, i: nat, value: int)
    requires Inv(s) && i < |s.producers|
    ensures Inv(ProducerStep(s, i, value))
  {
    assert ProducerOk(s, i);
    var s' := ProducerStep(s, i, value);
    match s.producers[i]
    case Idle => TicketStep(s, i, value, s');
    case Locate(_, _, _) => WalkStep(s, i, value, s');
    case WriteData(_, _, _) => WriteStep(s, i, value, s');
    case SetFlag(_, _, _) => FlagStep(s, i, value, s');
    case AllocAhead(_) | Alloc(_, _) => AllocStep(s, i, value, s');
    case LinkAhead(_, _) | Link(_, _, _) =>
      if s.heap[s.producers[i].buf].next.None? { LinkStep(s, i, value, s'); } else { FailedLinkStep(s, i, value, s'); }
    case _ => QuietStep(s, i, value, s');
  }
}
