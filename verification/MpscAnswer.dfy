/**
 What `dequeue` answers once every producer has finished: the first element that waits, unless `tail_of_queue_`,
 which a late `enqueue` can throw back, points to a buffer between the head and that element. Then `dequeue`
 answers that there is none, however often it is called.
 */
module MpscAnswer {
  import opened MpscQueue
  import opened MpscInvariant
  import opened MpscConsumerProof
  import opened MpscTheorems
  import opened MpscProgress
  import opened MpscDequeue

  // ----- elements that wait -----

  /** The element of ticket `L` is published and neither delivered nor passed by a head. */
  ghost predicate Waiting(s: State, L: nat) {
    Slot(s.heap, s.h.chain, L).isSet == 1 && !Passed(s.heap, s.h.chain, L)
  }

  ghost predicate FirstWaiting(s: State, W: nat) {
    Waiting(s, W) && forall L: nat | L < W :: !Waiting(s, L)
  }

  /** Every `enqueue` has returned. */
  ghost predicate Quiet(s: State) {
    forall i: nat | i < |s.producers| :: s.producers[i].Idle?
  }

  /** The tail buffer is the head buffer or a later one, and lies before the buffer of ticket `W`. */
  ghost predicate Behind(s: State, W: nat) {
    Position(s, s.headBuf) <= Position(s, s.tailBuf) < W / NODE_SIZE + 1
  }

  lemma {:induction false} FirstExists(s: State, L: nat) returns (W: nat)
    requires Waiting(s, L)
    ensures W <= L && FirstWaiting(s, W)
  {
    if M: nat :| M < L && Waiting(s, M) {
      W := FirstExists(s, M);
    } else {
      W := L;
    }
  }

  // ----- buffers before the head buffer -----

  ghost predicate BufferDone(s: State, k: nat) {
    k < |s.h.chain| && s.h.chain[k] < |s.heap| && s.heap[s.h.chain[k]].head >= NODE_SIZE
  }

  /** The head of every buffer before the head buffer has reached its end. */
  ghost predicate Drained(s: State) {
    forall k: nat | k + 1 < Position(s, s.headBuf) :: BufferDone(s, k)
  }

  lemma HeadBufferStep(s: State, a: Action, s': State)
    requires s' == Step(s, a)
    ensures s'.headBuf == s.headBuf ||
      (a.Consume? && s.consumer.EnterNext? && NextOf(s, s.headBuf).Some? && s'.headBuf == NextOf(s, s.headBuf).value)
  {
    match a
    case Produce(_, _) =>
    case Consume =>
      if Looking(s.consumer) {
        LookingStep(s);
      }
  }

  lemma DrainedStep(s: State, a: Action, s': State)
    requires Inv(s) && Drained(s) && s' == Step(s, a)
    ensures Drained(s')
  {
    StepMonotone(s, a, s');
    HeadBufferStep(s, a, s');
    NextPosition(s, s.headBuf);
    forall k: nat | k + 1 < Position(s', s'.headBuf)
      ensures BufferDone(s', k)
    {
      DoneStays(s, s', k);
      if s'.headBuf == s.headBuf {
        assert BufferMonotone(s, s', s.headBuf);
        assert BufferDone(s, k);
      } else if k + 1 < Position(s, s.headBuf) {
        assert BufferDone(s, k);
      } else {
        assert BufferMonotone(s, s', s'.headBuf);
        assert s.h.chain[k] == s.headBuf;
      }
    }
  }

  lemma DoneStays(s: State, s': State, k: nat)
    requires Monotone(s, s')
    ensures BufferDone(s, k) ==> BufferDone(s', k)
  {
    if BufferDone(s, k) {
      assert BufferMonotone(s, s', s.h.chain[k]);
    }
  }

  lemma {:induction false} RunDrained(threads: nat, states: seq<State>, actions: seq<Action>, k: nat)
    requires IsRun(threads, states, actions) && k < |states|
    ensures Drained(states[k])
  {
    if k > 0 {
      RunDrained(threads, states, actions, k - 1);
      RunInv(threads, states, actions, k - 1);
      assert StepAt(states, actions, k - 1);
      DrainedStep(states[k - 1], actions[k - 1], states[k]);
    }
  }

  // ----- settled states -----

  ghost predicate Settled(s: State) {
    Inv(s) && Drained(s) && Quiet(s)
  }

  lemma SettledStep(s: State, s': State)
    requires Settled(s) && s' == Step(s, Consume)
    ensures Settled(s')
  {
    StepInv(s, Consume);
    DrainedStep(s, Consume, s');
    ConsumerFrame(s);
  }

  /** With nobody at work, exactly the issued tickets have their element in the cell, taken out or not. */
  lemma SettledSlot(s: State, L: nat)
    requires Settled(s)
    ensures Slot(s.heap, s.h.chain, L).isSet <= 2
    ensures Slot(s.heap, s.h.chain, L).isSet != 0 <==> L < s.tail
  {
    assert SlotOk(s, L);
  }

  /** What waits, waits at the head or behind it. */
  lemma WaitsBehindHead(s: State, L: nat)
    requires Settled(s) && Waiting(s, L)
    ensures HeadSlot(s) <= L < s.tail && L / NODE_SIZE < |s.h.chain|
  {
    SettledSlot(s, L);
    HeadFacts(s);
    DonePasses(s, L);
  }

  lemma DonePasses(s: State, L: nat)
    ensures BufferDone(s, L / NODE_SIZE) ==> Passed(s.heap, s.h.chain, L)
  {
  }

  // ----- the way to the first element that waits -----

  /** The consumer is in its outer loop. */
  ghost predicate Walking(s: State)
    requires SharedOk(s)
  {
    match s.consumer
    case LoadTailBuffer | LoadHead => true
    case CheckTailBuffer(prevSize) => prevSize == Base(s, s.tailBuf)
    case CheckTail(prevSize) => prevSize == Base(s, s.tailBuf) && s.headBuf == s.tailBuf
    case LeaveBuffer => s.heap[s.headBuf].head >= NODE_SIZE
    case EnterNext => s.heap[s.headBuf].head >= NODE_SIZE && s.headBuf != s.tailBuf
    case _ => false
  }

  /** The consumer stands at the head cell, and it is the one of ticket `W`. */
  ghost predicate AtFirst(s: State, W: nat) {
    s.headBuf < |s.heap| && HeadSlot(s) == W && (s.consumer.WaitHead? || s.consumer.TakeHead?)
  }

  /** The same elements wait in both states, and nothing was delivered. */
  ghost predicate SameWaiting(s: State, s': State) {
    && s'.h.deliveries == s.h.deliveries && s'.h.skipped == s.h.skipped
    && forall L: nat :: Waiting(s', L) <==> Waiting(s, L)
  }

  /** A step on the way, for an element that waits first. */
  ghost predicate OnTheWay(s: State, W: nat, s': State)
    requires SharedOk(s')
  {
    if Behind(s, W) then s'.consumer.Ready? || (Walking(s') && Behind(s', W))
    else AtFirst(s', W) || (Walking(s') && !Behind(s', W))
  }

  lemma LooksAtTail(s: State, W: nat, s': State)
    requires Settled(s) && FirstWaiting(s, W) && Walking(s) && s' == ConsumerStep(s) && SharedOk(s')
    requires s.consumer.LoadTailBuffer? || s.consumer.CheckTailBuffer? || s.consumer.CheckTail?
    ensures OnTheWay(s, W, s') && SameWaiting(s, s')
  {
    WaitsBehindHead(s, W);
  }

  lemma SkipsHead(s: State, W: nat, s': State)
    requires Settled(s) && FirstWaiting(s, W) && s.consumer.LoadHead? && s' == ConsumerStep(s) && SharedOk(s')
    requires s.heap[s.headBuf].head < NODE_SIZE && ValidHead(s) && HeadFlag(s) == 2
    ensures OnTheWay(s, W, s') && SameWaiting(s, s')
  {
    HeadFacts(s);
    StoreHeadFrame(s, s.headBuf, HeadSlot(s), StoreHead(s, s.headBuf, s.heap[s.headBuf].head + 1));
  }

  lemma LooksAtHead(s: State, W: nat, s': State)
    requires Settled(s) && FirstWaiting(s, W) && s.consumer.LoadHead? && s' == ConsumerStep(s) && SharedOk(s')
    ensures OnTheWay(s, W, s') && SameWaiting(s, s')
  {
    WaitsBehindHead(s, W);
    HeadFacts(s);
    if s.heap[s.headBuf].head < NODE_SIZE {
      SettledSlot(s, HeadSlot(s));
      SlotIsCell(s, s.headBuf, s.heap[s.headBuf].head, HeadSlot(s));
      if HeadSlot(s) < W {
        assert !Waiting(s, HeadSlot(s));
        SkipsHead(s, W, s');
      }
    }
  }

  lemma LeavesBuffer(s: State, W: nat, s': State)
    requires Settled(s) && FirstWaiting(s, W) && Walking(s) && s' == ConsumerStep(s) && SharedOk(s')
    requires s.consumer.LeaveBuffer? || s.consumer.EnterNext?
    ensures OnTheWay(s, W, s') && SameWaiting(s, s')
  {
    WaitsBehindHead(s, W);
    HeadFacts(s);
    NextPosition(s, s.headBuf);
    assert LinkOk(s.heap, s.h.chain, s.heap[s.headBuf].position - 1);
  }

  lemma OnwardStep(s: State, W: nat, s': State)
    requires Settled(s) && FirstWaiting(s, W) && Walking(s) && s' == ConsumerStep(s) && SharedOk(s')
    ensures OnTheWay(s, W, s') && SameWaiting(s, s')
  {
    if s.consumer.LoadHead? {
      LooksAtHead(s, W, s');
    } else if s.consumer.LeaveBuffer? || s.consumer.EnterNext? {
      LeavesBuffer(s, W, s');
    } else {
      LooksAtTail(s, W, s');
    }
  }

  ghost predicate SameTail(s: State, s': State) {
    && s'.tail == s.tail && s'.tailBuf == s.tailBuf && s'.h.issued == s.h.issued
    && Position(s', s'.tailBuf) == Position(s, s.tailBuf)
  }

  lemma TailStep(s: State, s': State)
    requires SharedOk(s) && s' == Step(s, Consume)
    ensures SameTail(s, s')
  {
    ConsumerFrame(s);
    StepBuffer(s, Consume, s.tailBuf);
  }

  /** From one state to the other the element of ticket `W` was delivered, with its payload, from the head buffer. */
  ghost predicate Delivers(s: State, W: nat, s': State) {
    && W < |s.h.issued| && s'.h.deliveries == s.h.deliveries + [Delivery(W, s.h.issued[W])]
    && s'.h.skipped == s.h.skipped && SameTail(s, s') && Position(s', s'.headBuf) == W / NODE_SIZE + 1
  }

  /** At the element: it is delivered. */
  lemma FirstStep(s: State, W: nat, s': State)
    requires Settled(s) && FirstWaiting(s, W) && AtFirst(s, W) && s' == ConsumerStep(s)
    ensures s.consumer.WaitHead? ==> AtFirst(s', W) && SameWaiting(s, s')
    ensures s.consumer.TakeHead? ==> s'.consumer.Ready? && Delivers(s, W, s')
  {
    TailStep(s, s');
    HeadFacts(s);
    SlotIsCell(s, s.headBuf, s.heap[s.headBuf].head, W);
    assert SlotOk(s, W);
  }

  // ----- whole calls -----

  /** The first step of a call. */
  lemma CallStep(s: State, s': State)
    requires SharedOk(s) && s.consumer.Ready? && s' == ConsumerStep(s)
    ensures SharedOk(s') && Walking(s') && SameWaiting(s, s') && forall W: nat :: Behind(s', W) <==> Behind(s, W)
  {
    forall L: nat ensures Waiting(s', L) <==> Waiting(s, L) {
    }
  }

  lemma {:induction false} DeliversFirst(s: State, W: nat) returns (n: nat)
    requires Settled(s) && FirstWaiting(s, W) && ((Walking(s) && !Behind(s, W)) || AtFirst(s, W))
    ensures FirstReturn(s, n) && Settled(ConsumerAlone(s, n)) && Delivers(s, W, ConsumerAlone(s, n))
    decreases StepsLeft(s)
  {
    var s' := Step(s, Consume);
    SettledStep(s, s');
    TailStep(s, s');
    ConsumerCloser(s, s');
    if AtFirst(s, W) {
      FirstStep(s, W, s');
      if s.consumer.TakeHead? {
        OneStepReturn(s);
        return 1;
      }
    } else {
      OnwardStep(s, W, s');
    }
    var m := DeliversFirst(s', W);
    LaterReturn(s, m);
    n := m + 1;
  }

  /** A call that finds an element. */
  lemma CallDelivers(s: State, W: nat) returns (n: nat)
    requires Settled(s) && s.consumer.Ready? && FirstWaiting(s, W) && !Behind(s, W)
    ensures FirstReturn(s, n) && Settled(ConsumerAlone(s, n)) && Delivers(s, W, ConsumerAlone(s, n))
  {
    var s' := Step(s, Consume);
    SettledStep(s, s');
    CallStep(s, s');
    TailStep(s, s');
    var m := DeliversFirst(s', W);
    LaterReturn(s, m);
    n := m + 1;
  }

  /** The tail is behind: between the calls and within them. */
  ghost predicate Stuck(s: State, W: nat) {
    Settled(s) && FirstWaiting(s, W) && Behind(s, W) && (s.consumer.Ready? || Walking(s))
  }

  lemma StuckStep(s: State, W: nat, s': State)
    requires Stuck(s, W) && s' == Step(s, Consume)
    ensures Stuck(s', W) && s'.h.deliveries == s.h.deliveries
  {
    SettledStep(s, s');
    if s.consumer.Ready? {
      CallStep(s, s');
    } else {
      OnwardStep(s, W, s');
      StillBehind(s, W, s');
    }
  }

  lemma StillBehind(s: State, W: nat, s': State)
    requires Stuck(s, W) && !s.consumer.Ready? && s' == Step(s, Consume)
    ensures s'.consumer.Ready? ==> Behind(s', W)
  {
    WaitsBehindHead(s, W);
    HeadFacts(s);
    NextPosition(s, s.headBuf);
    assert LinkOk(s.heap, s.h.chain, s.heap[s.headBuf].position - 1);
  }

  lemma {:induction false} StuckForever(s: State, W: nat, n: nat)
    requires Stuck(s, W)
    ensures Stuck(ConsumerAlone(s, n), W) && ConsumerAlone(s, n).h.deliveries == s.h.deliveries
    decreases n
  {
    if n > 0 {
      StuckStep(s, W, Step(s, Consume));
      StuckForever(Step(s, Consume), W, n - 1);
    }
  }

  // ----- when nothing waits -----

  ghost predicate NoneWaiting(s: State) {
    forall L: nat :: !Waiting(s, L)
  }

  lemma NoneMarked(s: State, l: Locals)
    requires SharedOk(s) && ChosenOk(s, l)
    ensures !NoneWaiting(s)
  {
    var L := Base(s, l.tnBuf) + l.tnIndex;
    SlotIsCell(s, l.tnBuf, l.tnIndex, L);
    assert Waiting(s, L);
  }

  lemma NoneTaken(s: State)
    requires SharedOk(s) && HeadOpen(s) && HeadFlag(s) == 1
    ensures !NoneWaiting(s)
  {
    HeadFacts(s);
    assert Waiting(s, HeadSlot(s));
  }

  lemma NoneSkipped(s: State, s': State)
    requires SharedOk(s) && NoneWaiting(s) && s.consumer.LoadHead? && s' == ConsumerStep(s)
    ensures NoneWaiting(s') && s'.h.deliveries == s.h.deliveries
  {
    HeadFacts(s);
    if s.heap[s.headBuf].head < NODE_SIZE {
      StoreHeadFrame(s, s.headBuf, HeadSlot(s), StoreHead(s, s.headBuf, s.heap[s.headBuf].head + 1));
    }
    forall L: nat ensures !Waiting(s', L) {
      assert !Waiting(s, L);
    }
  }

  lemma NoneStep(s: State, s': State)
    requires SharedOk(s) && ConsumerOk(s) && NoneWaiting(s) && s' == ConsumerStep(s)
    ensures NoneWaiting(s') && s'.h.deliveries == s.h.deliveries
  {
    if s.consumer.LoadHead? {
      NoneSkipped(s, s');
    } else if s.consumer.MarkTaken? {
      NoneMarked(s, s.consumer.l);
    } else if s.consumer.TakeHead? {
      NoneTaken(s);
    } else {
      NothingStored(s, s');
      forall L: nat ensures !Waiting(s', L) {
        assert !Waiting(s, L);
      }
    }
  }

  lemma NothingStored(s: State, s': State)
    requires s' == ConsumerStep(s) && !s.consumer.LoadHead? && !s.consumer.MarkTaken? && !s.consumer.TakeHead?
    ensures s'.heap == s.heap && s'.h.chain == s.h.chain && s'.h.deliveries == s.h.deliveries
  {
    if Looking(s.consumer) {
      LookingStep(s);
    }
  }

  lemma {:induction false} NoneForever(s: State, n: nat)
    requires Inv(s) && NoneWaiting(s)
    ensures ConsumerAlone(s, n).h.deliveries == s.h.deliveries
    decreases n
  {
    if n > 0 {
      StepInv(s, Consume);
      NoneStep(s, Step(s, Consume));
      NoneForever(Step(s, Consume), n - 1);
    }
  }

  // ----- the answer -----

  /** Some element waits, and the tail is not behind the first one. */
  ghost predicate Found(s: State, W: nat) {
    FirstWaiting(s, W) && !Behind(s, W)
  }

  lemma Answer(s: State) returns (n: nat)
    requires Settled(s) && s.consumer.Ready?
    ensures FirstReturn(s, n)
    ensures forall W: nat | Found(s, W) ::
      && W < |s.h.issued|
      && ConsumerAlone(s, n).h.deliveries == s.h.deliveries + [Delivery(W, s.h.issued[W])]
    ensures (forall W: nat :: !Found(s, W)) ==> ConsumerAlone(s, n).h.deliveries == s.h.deliveries
  {
    if W: nat :| Found(s, W) {
      n := CallDelivers(s, W);
    } else {
      n := CallReturns(s);
      if L: nat :| Waiting(s, L) {
        var W := FirstExists(s, L);
        assert !Found(s, W);
        StuckForever(s, W, n);
      } else {
        NoneForever(s, n);
      }
    }
  }

  /**
   A `dequeue` called in a reachable state in which every `enqueue` has returned: it delivers the first element that
   waits, with its payload, if and only if there is one and the tail is not behind it.
   */
  lemma DequeueAnswers(threads: nat, states: seq<State>, actions: seq<Action>, k: nat) returns (n: nat)
    requires IsRun(threads, states, actions) && k < |states| && Quiet(states[k]) && states[k].consumer.Ready?
    ensures FirstReturn(states[k], n)
    ensures forall W: nat | Found(states[k], W) ::
      && W < |states[k].h.issued|
      && ConsumerAlone(states[k], n).h.deliveries == states[k].h.deliveries + [Delivery(W, states[k].h.issued[W])]
    ensures (forall W: nat :: !Found(states[k], W)) ==>
      ConsumerAlone(states[k], n).h.deliveries == states[k].h.deliveries
  {
    RunInv(threads, states, actions, k);
    RunDrained(threads, states, actions, k);
    n := Answer(states[k]);
  }
}
