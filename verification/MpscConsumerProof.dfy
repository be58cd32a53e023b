/** Every consumer step preserves the invariant. */
module MpscConsumerProof {
  import opened Wrappers
  import opened MpscQueue
  import opened MpscInvariant

  /** A step that moves only the consumer's program counter. */
  lemma PcStep(s: State, c: Consumer, s': State)
    requires Inv(s) && ConsumerOk(s')
    requires s' == Go(s, c) || s' == Go(s, c).(h := s.h.(sawPending := true))
    requires !s'.h.sawPending ==> InOrderPc(c)
    ensures Inv(s')
  {
    forall j: nat | j < |s'.producers| ensures ProducerOk(s', j) {
      assert ProducerOk(s, j);
    }
    forall L: nat ensures SlotOk(s', L) {
      assert SlotOk(s, L);
    }
    PcDeliveries(s, c, s');
  }

  lemma PcDeliveries(s: State, c: Consumer, s': State)
    requires DeliveriesOk(s) && AccountsOk(s) && InOrder(s)
    requires s' == Go(s, c) || s' == Go(s, c).(h := s.h.(sawPending := true))
    requires !s'.h.sawPending ==> InOrderPc(c)
    ensures DeliveriesOk(s') && AccountsOk(s') && InOrder(s')
  {
    forall j: nat | j < |s'.h.deliveries| ensures DeliveryOk(s', j) {
      assert DeliveryOk(s, j);
    }
    forall L: nat ensures AccountOk(s', L) {
      assert AccountOk(s, L);
      assert Delivered(s, L) ==> Delivered(s', L);
    }
    if !s'.h.sawPending {
      forall L: nat ensures Untouched(s', L) {
        assert Untouched(s, L);
      }
    }
  }

  // ----- steps of the outer loop -----

  lemma HeadFacts(s: State)
    requires SharedOk(s)
    ensures ChainOk(s.heap, s.h.chain) && InChain(s.heap, s.h.chain, s.headBuf)
    ensures |s.heap[s.headBuf].cells| == NODE_SIZE && s.heap[s.headBuf].head <= NODE_SIZE
    ensures HeadSlot(s) >= 0
    ensures s.heap[s.headBuf].head < NODE_SIZE ==>
      && ValidHead(s)
      && Slot(s.heap, s.h.chain, HeadSlot(s)) == Cell(s, s.headBuf, s.heap[s.headBuf].head)
      && !Passed(s.heap, s.h.chain, HeadSlot(s))
  {
    assert LinkOk(s.heap, s.h.chain, s.heap[s.headBuf].position - 1);
    if s.heap[s.headBuf].head < NODE_SIZE {
      SlotIsCell(s, s.headBuf, s.heap[s.headBuf].head, HeadSlot(s));
    }
  }

  lemma OuterStep(s: State, s': State)
    requires Inv(s) && s' == ConsumerStep(s)
    requires var c := s.consumer;
      c.Ready? || c.LoadTailBuffer? || c.CheckTailBuffer? || c.CheckTail? || c.LeaveBuffer?
    ensures Inv(s')
  {
    PcStep(s, s'.consumer, s');
  }

  lemma WaitHeadStep(s: State, s': State)
    requires Inv(s) && s' == ConsumerStep(s) && s.consumer.WaitHead?
    ensures Inv(s')
  {
    HeadFacts(s);
    PcStep(s, s'.consumer, s');
  }

  // ----- the consumer's writes -----

  /** The consumer changed cells only from 1 to 2 and heads only upwards, in linked buffers. */
  ghost predicate Consumed(s: State, s': State) {
    && s'.producers == s.producers && s'.tail == s.tail && s'.tailBuf == s.tailBuf && s'.fault == s.fault
    && s'.h == s.h.(deliveries := s'.h.deliveries, skipped := s'.h.skipped)
    && |s'.heap| == |s.heap|
    && (forall c: nat :: InChain(s.heap, s.h.chain, c) <==> InChain(s'.heap, s'.h.chain, c))
    && (forall c: nat | c < |s.heap| ::
          && s'.heap[c].position == s.heap[c].position
          && (!InChain(s.heap, s.h.chain, c) ==> s'.heap[c] == s.heap[c]))
    && (forall M: nat :: Slot(s'.heap, s'.h.chain, M) == Slot(s.heap, s.h.chain, M)
          || (Slot(s.heap, s.h.chain, M).isSet != 0
              && Slot(s'.heap, s'.h.chain, M) == Slot(s.heap, s.h.chain, M).(isSet := 2)))
    && ChainOk(s'.heap, s'.h.chain)
    && InChain(s'.heap, s'.h.chain, s'.headBuf)
  }

  lemma ConsumedProducer(s: State, i: nat, s': State)
    requires Consumed(s, s') && i < |s.producers| && ProducerOk(s, i)
    ensures ProducerOk(s', i)
  {
  }

  lemma ConsumedShared(s: State, s': State)
    requires Inv(s) && Consumed(s, s')
    ensures SharedOk(s') && ProducersOk(s') && SlotsOk(s')
  {
    forall j: nat | j < |s'.producers| ensures ProducerOk(s', j) {
      assert ProducerOk(s, j);
      ConsumedProducer(s, j, s');
    }
    forall L: nat ensures SlotOk(s', L) {
      assert SlotOk(s, L);
    }
  }

  /** Nothing is delivered: earlier deliveries stay accounted for. */
  lemma ConsumedSame(s: State, s': State)
    requires Inv(s) && Consumed(s, s') && s'.h == s.h
    requires forall M: nat :: Slot(s'.heap, s'.h.chain, M) == Slot(s.heap, s.h.chain, M)
    requires forall M: nat :: Passed(s.heap, s.h.chain, M) ==> Passed(s'.heap, s'.h.chain, M)
    requires forall M: nat :: Passed(s'.heap, s'.h.chain, M) ==>
      Passed(s.heap, s.h.chain, M) || Slot(s.heap, s.h.chain, M).isSet == 2
    ensures DeliveriesOk(s') && AccountsOk(s')
  {
    forall j: nat | j < |s'.h.deliveries| ensures DeliveryOk(s', j) {
      assert DeliveryOk(s, j);
    }
    forall L: nat ensures AccountOk(s', L) {
      assert AccountOk(s, L);
      assert Delivered(s, L) ==> Delivered(s', L);
    }
  }

  /** The step that delivers `L` moves a head past cell `M`, which is neither delivered nor handled. */
  ghost predicate NewlySkipped(s: State, L: nat, s': State, M: nat) {
    && M != L && Passed(s'.heap, s'.h.chain, M) && !Passed(s.heap, s.h.chain, M)
    && Slot(s.heap, s.h.chain, M).isSet != 2
  }

  /** Ticket `L` is delivered: it was not before, and it is accounted for afterwards. */
  lemma ConsumedOne(s: State, L: nat, s': State)
    requires Inv(s) && Consumed(s, s')
    requires Slot(s.heap, s.h.chain, L).isSet == 1 && !Passed(s.heap, s.h.chain, L)
    requires L < |s.h.issued|
    requires s'.h.deliveries == s.h.deliveries + [Delivery(L, s.h.issued[L])]
    requires s.h.skipped <= s'.h.skipped
    requires Slot(s'.heap, s'.h.chain, L).isSet == 2 || Passed(s'.heap, s'.h.chain, L)
    requires forall M: nat :: M != L ==> Slot(s'.heap, s'.h.chain, M) == Slot(s.heap, s.h.chain, M)
    requires forall M: nat :: Passed(s.heap, s.h.chain, M) ==> Passed(s'.heap, s'.h.chain, M)
    requires forall M: nat :: Passed(s'.heap, s'.h.chain, M) ==>
      Passed(s.heap, s.h.chain, M) || M == L || M in s'.h.skipped || Slot(s.heap, s.h.chain, M).isSet == 2
    requires forall M: nat :: M in s'.h.skipped ==> M in s.h.skipped || NewlySkipped(s, L, s', M)
    ensures DeliveriesOk(s') && AccountsOk(s')
  {
    var n := |s.h.deliveries|;
    forall j: nat | j < |s'.h.deliveries| ensures DeliveryOk(s', j) {
      if j < n {
        assert DeliveryOk(s, j);
      }
    }
    forall j: nat, k: nat | j < k < |s'.h.deliveries|
      ensures s'.h.deliveries[j].slot != s'.h.deliveries[k].slot
    {
      assert DeliveryOk(s, j);
    }
    assert s'.h.deliveries[n].slot == L;
    forall M: nat ensures AccountOk(s', M) {
      ConsumedAccount(s, L, s', M);
    }
  }

  /** A cell that is neither handled nor below its head was not delivered. */
  lemma NotDelivered(s: State, M: nat)
    requires DeliveriesOk(s)
    requires !Passed(s.heap, s.h.chain, M) && Slot(s.heap, s.h.chain, M).isSet != 2
    ensures !Delivered(s, M)
  {
    forall j: nat | j < |s.h.deliveries| ensures s.h.deliveries[j].slot != M {
      assert DeliveryOk(s, j);
    }
  }

  lemma DeliveredGrows(s: State, L: nat, s': State, M: nat)
    requires |s'.h.deliveries| == |s.h.deliveries| + 1 && s.h.deliveries <= s'.h.deliveries
    requires s'.h.deliveries[|s.h.deliveries|].slot == L
    ensures Delivered(s', M) <==> Delivered(s, M) || M == L
  {
    if Delivered(s, M) {
      var j: nat :| j < |s.h.deliveries| && s.h.deliveries[j].slot == M;
      assert s'.h.deliveries[j].slot == M;
    }
  }

  lemma ConsumedAccount(s: State, L: nat, s': State, M: nat)
    requires DeliveriesOk(s) && AccountOk(s, M) && AccountOk(s, L) && !Passed(s.heap, s.h.chain, L)
    requires |s'.h.deliveries| == |s.h.deliveries| + 1 && s.h.deliveries <= s'.h.deliveries
    requires s'.h.deliveries[|s.h.deliveries|].slot == L
    requires s.h.skipped <= s'.h.skipped
    requires M != L ==> Slot(s'.heap, s'.h.chain, M) == Slot(s.heap, s.h.chain, M)
    requires Passed(s.heap, s.h.chain, M) ==> Passed(s'.heap, s'.h.chain, M)
    requires Passed(s'.heap, s'.h.chain, M) ==>
      Passed(s.heap, s.h.chain, M) || M == L || M in s'.h.skipped || Slot(s.heap, s.h.chain, M).isSet == 2
    requires M in s'.h.skipped ==> M in s.h.skipped || NewlySkipped(s, L, s', M)
    ensures AccountOk(s', M)
  {
    DeliveredGrows(s, L, s', M);
    if NewlySkipped(s, L, s', M) {
      NotDelivered(s, M);
    }
  }

  // ----- moving the head past a handled cell -----

  lemma LoadHeadInv(s: State, s': State)
    requires Inv(s) && s' == ConsumerStep(s) && s.consumer.LoadHead?
    ensures Inv(s')
  {
    HeadFacts(s);
    if s.heap[s.headBuf].head >= NODE_SIZE || HeadFlag(s) != 2 {
      assert SlotOk(s, HeadSlot(s));
      PcStep(s, s'.consumer, s');
    } else {
      SkipHandled(s, s');
    }
  }

  lemma SkipHandled(s: State, s': State)
    requires Inv(s) && InChain(s.heap, s.h.chain, s.headBuf)
    requires s.heap[s.headBuf].head < NODE_SIZE && ValidHead(s) && HeadFlag(s) == 2
    requires s' == Go(StoreHead(s, s.headBuf, s.heap[s.headBuf].head + 1), LoadTailBuffer)
    ensures Inv(s')
  {
    HeadFacts(s);
    var L: nat := HeadSlot(s);
    StoreHeadFrame(s, s.headBuf, L, StoreHead(s, s.headBuf, s.heap[s.headBuf].head + 1));
    assert Consumed(s, s');
    ConsumedShared(s, s');
    ConsumedSame(s, s');
    assert Slot(s.heap, s.h.chain, L).isSet == 2;
    assert s.h.sawPending || Untouched(s, L);
  }

  // ----- delivering the head -----

  lemma TakeHeadInv(s: State, s': State)
    requires Inv(s) && s' == ConsumerStep(s) && s.consumer.TakeHead?
    ensures Inv(s')
  {
    HeadFacts(s);
    var L := HeadSlot(s);
    var s1 := StoreHead(s, s.headBuf, s.heap[s.headBuf].head + 1);
    StoreHeadFrame(s, s.headBuf, L, s1);
    assert SlotOk(s, L);
    assert Consumed(s, s');
    ConsumedShared(s, s');
    ConsumedOne(s, L, s');
    TakeHeadOrder(s, L, s');
  }

  lemma TakeHeadOrder(s: State, L: nat, s': State)
    requires InOrder(s) && s.headBuf < |s.heap| && L == HeadSlot(s)
    requires s'.headBuf == s.headBuf && s'.headBuf < |s'.heap| && HeadSlot(s') == HeadSlot(s) + 1
    requires s'.h.sawPending == s.h.sawPending && s'.consumer.Ready?
    requires |s'.h.deliveries| == |s.h.deliveries| + 1 && s.h.deliveries <= s'.h.deliveries
    requires s'.h.deliveries[|s.h.deliveries|].slot == L
    requires forall M: nat :: Slot(s'.heap, s'.h.chain, M) == Slot(s.heap, s.h.chain, M)
    requires forall M: nat :: Passed(s'.heap, s'.h.chain, M) ==> Passed(s.heap, s.h.chain, M) || M == L
    ensures InOrder(s')
  {
    if !s.h.sawPending {
      forall M: nat ensures Untouched(s', M) {
        assert Untouched(s, M);
      }
      forall j: nat | j < |s'.h.deliveries| ensures s'.h.deliveries[j].slot == j {
        if j < |s.h.deliveries| {
          assert s'.h.deliveries[j] == s.h.deliveries[j];
        }
      }
    }
  }

  // ----- changing the head buffer -----

  lemma EnterNextInv(s: State, s': State)
    requires Inv(s) && s' == ConsumerStep(s) && s.consumer.EnterNext?
    ensures Inv(s')
  {
    HeadFacts(s);
    var k := s.heap[s.headBuf].position - 1;
    assert LinkOk(s.heap, s.h.chain, k);
    if k + 1 == |s.h.chain| {
      PcStep(s, Ready, s');
    } else {
      assert LinkOk(s.heap, s.h.chain, k + 1);
      assert Consumed(s, s');
      ConsumedShared(s, s');
      ConsumedSame(s, s');
      EnterNextOrder(s, k, s');
    }
  }

  lemma EnterNextOrder(s: State, k: nat, s': State)
    requires SharedOk(s) && InOrder(s)
    requires k == s.heap[s.headBuf].position - 1 && k + 1 < |s.h.chain| && s.heap[s.headBuf].head == NODE_SIZE
    requires s' == Go(s.(headBuf := s.h.chain[k + 1]), LoadTailBuffer)
    ensures InOrder(s')
  {
    assert LinkOk(s.heap, s.h.chain, k + 1);
    var next := s.h.chain[k + 1];
    var L := HeadSlot(s);
    SlotIsCell(s, next, 0, L);
    if !s.h.sawPending {
      assert Untouched(s, L);
      assert s.heap[next].head == 0;
      assert HeadSlot(s') == L;
      forall M: nat ensures Untouched(s', M) {
        assert Untouched(s, M);
      }
    }
  }

  // ----- the out-of-order path -----

  lemma ProbeNext(s: State, l: Locals)
    requires SharedOk(s) && ProbeOk(s, l)
    ensures ConsumerOk(ProbeStep(s, l)) && ProbeStep(s, l) == Go(s, ProbeStep(s, l).consumer)
  {
    assert LinkOk(s.heap, s.h.chain, s.heap[l.buf].position - 1);
  }

  lemma ProbeHeadNext(s: State, l: Locals)
    requires SharedOk(s) && ChosenOk(s, l) && !l.retargeted
    ensures ConsumerOk(ProbeHeadStep(s, l)) && ProbeHeadStep(s, l) == Go(s, ProbeHeadStep(s, l).consumer)
  {
  }

  lemma ScanGoesOn(s: State, l: Locals)
    requires ScanOk(s, l) && (l.scanBuf == l.buf ==> l.scanhead + 1 < l.temphead)
    ensures ConsumerOk(Go(s, ScanStep(l)))
  {
  }

  lemma ScanEnds(s: State, l: Locals)
    requires ScanOk(s, l)
    ensures ConsumerOk(Go(s, ScanDone(l)))
  {
  }

  lemma ScanTestNext(s: State, l: Locals)
    requires ScanOk(s, l)
    ensures ConsumerOk(ScanTestStep(s, l)) && ScanTestStep(s, l) == Go(s, ScanTestStep(s, l).consumer)
  {
    if l.scanBuf != l.buf {
      ScanGoesOn(s, l);
    } else if l.scanhead >= MinusOne(l.temphead) {
      ScanEnds(s, l);
    } else if HeadFlag(s) == 0 {
      ScanGoesOn(s, l);
    } else {
      ScanEnds(s, l);
    }
  }

  /** The scan never runs off the chain: below the probed buffer there is always a next one. */
  lemma ScanNext(s: State, l: Locals)
    requires ChainOk(s.heap, s.h.chain) && ScanOk(s, l) && l.scanhead >= NODE_SIZE
    requires l.scanBuf == l.buf ==> l.scanhead + 1 < l.temphead
    ensures s.heap[l.scanBuf].next.Some? && s.heap[l.scanBuf].next.value < |s.heap|
    ensures var next := s.heap[l.scanBuf].next.value;
      ScanOk(s, l.(scanBuf := next, scanhead := s.heap[next].head + 1))
  {
    var k := s.heap[l.scanBuf].position - 1;
    assert LinkOk(s.heap, s.h.chain, k);
    assert LinkOk(s.heap, s.h.chain, k + 1);
  }

  /** The scan replaces the chosen cell by an earlier one that is set. */
  lemma ScanRetarget(s: State, l: Locals)
    requires ChainOk(s.heap, s.h.chain) && ScanOk(s, l) && l.scanhead < NODE_SIZE
    requires ValidCell(s, l.scanBuf, l.scanhead) && Cell(s, l.scanBuf, l.scanhead).isSet == 1
    ensures ScanOk(s, l.(temphead := l.scanhead, buf := l.scanBuf, tnBuf := l.scanBuf, tnIndex := l.scanhead,
                         scanBuf := s.headBuf, scanhead := s.heap[s.headBuf].head + 1, retargeted := true))
  {
  }

  lemma ScanTarget(s: State, l: Locals) returns (l': Locals)
    requires ChainOk(s.heap, s.h.chain) && ScanOk(s, l)
    requires l.scanBuf == l.buf ==> l.scanhead + 1 < l.temphead
    ensures ScanOk(s, l') && ScanStepStep(s, l) == Go(s, ScanTest(l'))
  {
    assert LinkOk(s.heap, s.h.chain, s.heap[l.scanBuf].position - 1);
    if l.scanhead >= NODE_SIZE {
      ScanNext(s, l);
      var next := s.heap[l.scanBuf].next.value;
      l' := l.(scanBuf := next, scanhead := s.heap[next].head + 1);
    } else if Cell(s, l.scanBuf, l.scanhead).isSet == 1 {
      ScanRetarget(s, l);
      l' := l.(temphead := l.scanhead, buf := l.scanBuf, tnBuf := l.scanBuf, tnIndex := l.scanhead,
               scanBuf := s.headBuf, scanhead := s.heap[s.headBuf].head + 1, retargeted := true);
    } else {
      l' := l.(scanhead := l.scanhead + 1);
    }
  }

  lemma ScanStepNext(s: State, l: Locals)
    requires SharedOk(s) && ScanOk(s, l)
    requires l.scanBuf == l.buf ==> l.scanhead + 1 < l.temphead
    ensures ConsumerOk(ScanStepStep(s, l)) && ScanStepStep(s, l) == Go(s, ScanStepStep(s, l).consumer)
  {
    var l' := ScanTarget(s, l);
    ScanKept(s, l');
  }

  lemma ScanKept(s: State, l: Locals)
    requires ScanOk(s, l)
    ensures ConsumerOk(Go(s, ScanTest(l)))
  {
  }

  lemma NextBufferNext(s: State, l: Locals)
    requires SharedOk(s) && ProbeOk(s, l)
    ensures ConsumerOk(NextBufferStep(s, l)) && NextBufferStep(s, l) == Go(s, NextBufferStep(s, l).consumer)
  {
    var k := s.heap[l.buf].position - 1;
    assert LinkOk(s.heap, s.h.chain, k);
    if k + 1 < |s.h.chain| {
      assert LinkOk(s.heap, s.h.chain, k + 1);
    }
  }

  /** The steps that read cells but store nothing. */
  ghost predicate Looking(c: Consumer) {
    c.Probe? || c.ProbeHead? || c.ScanTest? || c.ScanStep? || c.ScanDone? || c.TakeData? || c.Recheck? || c.NextBuffer?
  }

  lemma LookingNext(s: State)
    requires SharedOk(s) && ConsumerOk(s) && Looking(s.consumer)
    ensures ConsumerOk(ConsumerStep(s)) && ConsumerStep(s) == Go(s, ConsumerStep(s).consumer)
  {
    match s.consumer
    case Probe(l) => ProbeNext(s, l);
    case ProbeHead(l) => ProbeHeadNext(s, l);
    case ScanTest(l) => ScanTestNext(s, l);
    case ScanStep(l) => ScanStepNext(s, l);
    case NextBuffer(l) => NextBufferNext(s, l);
    case _ =>
  }

  lemma LookingInv(s: State, s': State)
    requires Inv(s) && Looking(s.consumer) && s' == ConsumerStep(s)
    ensures Inv(s')
  {
    LookingNext(s);
    PcStep(s, s'.consumer, s');
  }

  // ----- delivering out of order -----

  /** What storing 2 into the chosen cell of ticket `L` does, whether or not the head of its buffer moves. */
  ghost predicate Marked(s: State, l: Locals, L: nat, s': State)
    requires l.buf < |s.heap|
  {
    var H := Base(s, l.buf) + s.heap[l.buf].head;
    && Consumed(s, s')
    && (forall M: nat :: Slot(s'.heap, s'.h.chain, M) ==
          if M == L then Slot(s.heap, s.h.chain, L).(isSet := 2) else Slot(s.heap, s.h.chain, M))
    && (forall M: nat :: Passed(s'.heap, s'.h.chain, M) <==>
          Passed(s.heap, s.h.chain, M) || (AdvancesHead(s, l) && M == H))
    && s'.h.skipped == s.h.skipped + (if JumpsHead(s, l) then [H] else [])
  }

  /**
   The scan chose a cell in a second look, right above the head of its buffer, and the head cell itself is not
   handled: the head then moves past it.
   */
  ghost predicate JumpsHead(s: State, l: Locals)
    requires l.buf < |s.heap|
  {
    && l.retargeted && AdvancesHead(s, l)
    && ValidCell(s, l.buf, s.heap[l.buf].head) && Cell(s, l.buf, s.heap[l.buf].head).isSet != 2
  }

  /** So a head jumps exactly if it moves past a cell that is neither handled nor the one being taken. */
  ghost predicate JumpMeans(s: State, l: Locals, L: nat)
    requires l.buf < |s.heap|
  {
    var H := Base(s, l.buf) + s.heap[l.buf].head;
    JumpsHead(s, l) <==> AdvancesHead(s, l) && H >= 0 && H != L && Slot(s.heap, s.h.chain, H).isSet != 2
  }

  lemma MarkStays(s: State, l: Locals, data: int, L: nat)
    requires SharedOk(s) && ChosenOk(s, l) && L == Base(s, l.tnBuf) + l.tnIndex && !AdvancesHead(s, l)
    ensures Marked(s, l, L, MarkTakenStep(s, l, data))
  {
    SlotIsCell(s, l.tnBuf, l.tnIndex, L);
    var n := Cell(s, l.tnBuf, l.tnIndex).(isSet := 2);
    StoreCellFrame(s, l.tnBuf, l.tnIndex, n, L, StoreCell(s, l.tnBuf, l.tnIndex, n));
  }

  /** The two stores together: the cell of ticket `L`, then the head of a linked buffer. */
  lemma TwoStores(s: State, l: Locals, L: nat, H: nat, s1: State, s2: State)
    requires ChainOk(s.heap, s.h.chain) && InChain(s.heap, s.h.chain, l.buf) && InChain(s.heap, s.h.chain, l.tnBuf)
    requires ValidCell(s, l.tnBuf, l.tnIndex) && l.tnIndex < NODE_SIZE && L == Base(s, l.tnBuf) + l.tnIndex
    requires s1 == StoreCell(s, l.tnBuf, l.tnIndex, Cell(s, l.tnBuf, l.tnIndex).(isSet := 2))
    requires s.heap[l.buf].head < NODE_SIZE && H == Base(s, l.buf) + s.heap[l.buf].head
    requires s2 == StoreHead(s1, l.buf, s1.heap[l.buf].head + 1)
    ensures ChainOk(s2.heap, s2.h.chain)
    ensures forall c: nat :: InChain(s.heap, s.h.chain, c) <==> InChain(s2.heap, s2.h.chain, c)
    ensures forall M: nat ::
      Slot(s2.heap, s2.h.chain, M)
        == if M == L then Slot(s.heap, s.h.chain, L).(isSet := 2) else Slot(s.heap, s.h.chain, M)
    ensures forall M: nat :: Passed(s2.heap, s2.h.chain, M) <==> Passed(s.heap, s.h.chain, M) || M == H
  {
    SlotIsCell(s, l.tnBuf, l.tnIndex, L);
    StoreCellFrame(s, l.tnBuf, l.tnIndex, Cell(s, l.tnBuf, l.tnIndex).(isSet := 2), L, s1);
    StoreHeadFrame(s1, l.buf, H, s2);
  }

  /** The head cell counts as handled after the first store exactly if it was handled or is the cell being taken. */
  lemma HeadAfterStore(s: State, l: Locals, L: nat, H: nat, s1: State)
    requires SharedOk(s) && ChosenOk(s, l) && L == Base(s, l.tnBuf) + l.tnIndex && AdvancesHead(s, l)
    requires H == Base(s, l.buf) + s.heap[l.buf].head
    requires s1 == StoreCell(s, l.tnBuf, l.tnIndex, Cell(s, l.tnBuf, l.tnIndex).(isSet := 2))
    ensures ValidCell(s1, l.buf, s.heap[l.buf].head)
    ensures Cell(s1, l.buf, s.heap[l.buf].head).isSet != 2 <==> JumpsHead(s, l)
    ensures JumpsHead(s, l) <==> H != L && Slot(s.heap, s.h.chain, H).isSet != 2
  {
    SlotIsCell(s, l.buf, s.heap[l.buf].head, H);
    SlotIsCell(s, l.tnBuf, l.tnIndex, L);
  }

  /** The whole step, as its two stores and the book-keeping. */
  lemma MarkUnfolds(s: State, l: Locals, data: int, L: nat, H: nat, s1: State, s2: State)
    requires SharedOk(s) && ChosenOk(s, l) && L == Base(s, l.tnBuf) + l.tnIndex && AdvancesHead(s, l)
    requires H == Base(s, l.buf) + s.heap[l.buf].head
    requires s1 == StoreCell(s, l.tnBuf, l.tnIndex, Cell(s, l.tnBuf, l.tnIndex).(isSet := 2))
    requires s2 == StoreHead(s1, l.buf, s1.heap[l.buf].head + 1)
    ensures MarkTakenStep(s, l, data) ==
      Deliver(s2.(h := s2.h.(skipped := s.h.skipped + if JumpsHead(s, l) then [H] else [])), L, data)
  {
    HeadAfterStore(s, l, L, H, s1);
  }

  lemma MarkAdvances(s: State, l: Locals, data: int, L: nat)
    requires SharedOk(s) && ChosenOk(s, l) && L == Base(s, l.tnBuf) + l.tnIndex && AdvancesHead(s, l)
    ensures Marked(s, l, L, MarkTakenStep(s, l, data))
  {
    var s1 := StoreCell(s, l.tnBuf, l.tnIndex, Cell(s, l.tnBuf, l.tnIndex).(isSet := 2));
    var s2 := StoreHead(s1, l.buf, s1.heap[l.buf].head + 1);
    var H := Base(s, l.buf) + s.heap[l.buf].head;
    MarkUnfolds(s, l, data, L, H, s1, s2);
    TwoStores(s, l, L, H, s1, s2);
  }

  /**
   The chosen cell is set, above its head, and carries its ticket's payload; the head it may move was not
   moved past.
   */
  lemma MarkFacts(s: State, l: Locals, data: int, L: nat)
    requires SharedOk(s) && SlotsOk(s) && ChosenOk(s, l) && Cell(s, l.tnBuf, l.tnIndex).data == data
    requires L == Base(s, l.tnBuf) + l.tnIndex
    ensures Slot(s.heap, s.h.chain, L).isSet == 1 && !Passed(s.heap, s.h.chain, L)
    ensures L < |s.h.issued| && s.h.issued[L] == data
    ensures AdvancesHead(s, l) ==>
      (Base(s, l.buf) + s.heap[l.buf].head >= 0 && !Passed(s.heap, s.h.chain, Base(s, l.buf) + s.heap[l.buf].head))
    ensures JumpMeans(s, l, L)
    ensures Marked(s, l, L, MarkTakenStep(s, l, data))
  {
    SlotIsCell(s, l.tnBuf, l.tnIndex, L);
    assert SlotOk(s, L);
    if AdvancesHead(s, l) {
      var H := Base(s, l.buf) + s.heap[l.buf].head;
      SlotIsCell(s, l.buf, s.heap[l.buf].head, H);
      HeadAfterStore(s, l, L, H, StoreCell(s, l.tnBuf, l.tnIndex, Cell(s, l.tnBuf, l.tnIndex).(isSet := 2)));
      MarkAdvances(s, l, data, L);
    } else {
      MarkStays(s, l, data, L);
    }
  }

  lemma MarkTakenInv(s: State, l: Locals, data: int, s': State)
    requires Inv(s) && s.consumer == MarkTaken(l, data) && s' == MarkTakenStep(s, l, data)
    ensures Inv(s')
  {
    var L := Base(s, l.tnBuf) + l.tnIndex;
    assert LinkOk(s.heap, s.h.chain, s.heap[l.tnBuf].position - 1);
    MarkFacts(s, l, data, L);
    MarkedInv(s, l, L, s');
  }

  lemma MarkedInv(s: State, l: Locals, L: nat, s': State)
    requires Inv(s) && l.buf < |s.heap| && Marked(s, l, L, s') && JumpMeans(s, l, L)
    requires AdvancesHead(s, l) ==>
      (Base(s, l.buf) + s.heap[l.buf].head >= 0 && !Passed(s.heap, s.h.chain, Base(s, l.buf) + s.heap[l.buf].head))
    requires Slot(s.heap, s.h.chain, L).isSet == 1 && !Passed(s.heap, s.h.chain, L) && L < |s.h.issued|
    requires s'.h.deliveries == s.h.deliveries + [Delivery(L, s.h.issued[L])]
    requires s'.consumer.Ready? && s.h.sawPending
    ensures Inv(s')
  {
    ConsumedShared(s, s');
    ConsumedOne(s, L, s');
  }

  lemma TouchingInv(s: State, s': State)
    requires Inv(s) && s' == ConsumerStep(s)
    requires s.consumer.LoadHead? || s.consumer.MarkTaken? || s.consumer.TakeHead? || s.consumer.EnterNext?
    ensures Inv(s')
  {
    match s.consumer
    case LoadHead => LoadHeadInv(s, s');
    case MarkTaken(l, data) => MarkTakenInv(s, l, data, s');
    case TakeHead => TakeHeadInv(s, s');
    case EnterNext => EnterNextInv(s, s');
  }

  lemma ConsumerStepInv(s: State, s': State)
    requires Inv(s) && s' == ConsumerStep(s)
    ensures Inv(s')
  {
    if Looking(s.consumer) {
      LookingInv(s, s');
    } else if s.consumer.WaitHead? {
      WaitHeadStep(s, s');
    } else if s.consumer.LoadHead? || s.consumer.MarkTaken? || s.consumer.TakeHead? || s.consumer.EnterNext? {
      TouchingInv(s, s');
    } else {
      OuterStep(s, s');
    }
  }
}
