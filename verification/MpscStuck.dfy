/**
 A run after which an element cannot be taken out. Tickets 0 to 2N are given out, where N is the size of a buffer.
 The producer of ticket N links the second buffer and stops before it stores `tail_of_queue_`. Meanwhile all the
 others finish: they fill the second buffer, link a third one and make it the tail. Then the late store throws
 the tail back to the second buffer. A consumer that has emptied the second buffer finds itself at the tail and
 answers that the queue is empty, although ticket 2N waits in the third buffer.
 */
module MpscStuck {
  import opened MpscQueue
  import opened MpscInvariant
  import opened MpscTheorems
  import opened MpscProgress
  import opened MpscDequeue
  import opened MpscAnswer
  import opened MpscRuns

  /** Everything that `p` holds of has the properties of a reachable state. */
  ghost predicate Sound(p: State -> bool) {
    forall s: State :: p(s) ==> Inv(s) && Drained(s)
  }

  lemma ReachableSound(threads: nat)
    ensures Sound(s => Reachable(threads, s))
  {
    forall s: State | Reachable(threads, s)
      ensures Inv(s) && Drained(s)
    {
      var states, actions :| IsRun(threads, states, actions) && states[|actions|] == s;
      RunInv(threads, states, actions, |actions|);
      RunDrained(threads, states, actions, |actions|);
    }
  }

  lemma {:induction false} AloneReached(p: State -> bool, s: State, i: nat, n: nat)
    requires Closed(p) && p(s)
    ensures p(Alone(s, i, n))
    decreases n
  {
    if n > 0 {
      OnStep(p, s, Produce(i, 0), Step(s, Produce(i, 0)));
      AloneReached(p, Step(s, Produce(i, 0)), i, n - 1);
    }
  }

  lemma {:induction false} ConsumerReached(p: State -> bool, s: State, n: nat)
    requires Closed(p) && p(s)
    ensures p(ConsumerAlone(s, n))
    decreases n
  {
    if n > 0 {
      OnStep(p, s, Consume, Step(s, Consume));
      ConsumerReached(p, Step(s, Consume), n - 1);
    }
  }

  // ----- the late producer -----

  const THREADS: nat := 2 * NODE_SIZE + 1

  ghost function LateOp(): Enqueue {
    Enqueue(NODE_SIZE, 0, false)
  }

  ghost predicate NothingTaken(s: State) {
    s.consumer == Ready && s.h.deliveries == [] && s.h.skipped == [] && s.tail == THREADS
  }

  /** Thread N is about to store the tail; nothing was taken out. */
  ghost predicate Late(s: State) {
    && |s.producers| == THREADS && s.producers[NODE_SIZE] == StoreTail(LateOp(), 1)
    && NothingTaken(s) && 1 < |s.heap| && s.heap[1].position == 2
  }

  lemma LateStart(p: State -> bool) returns (s: State)
    requires Closed(p) && p(Init(THREADS))
    ensures p(s) && Late(s)
  {
    var s0 := Ticketed(THREADS, THREADS);
    TicketsTaken(p, THREADS, THREADS);
    assert s0.producers[NODE_SIZE := LoadTail(LateOp())] == s0.producers;
    assert At(s0, NODE_SIZE, LoadTail(LateOp())) == s0;
    FindsNoRoom(p, s0, NODE_SIZE, LateOp());
    LinksSecond(p, s0, NODE_SIZE, LateOp());
    s := At(SecondLinked(s0, NODE_SIZE), NODE_SIZE, StoreTail(LateOp(), 1));
  }

  /** The first `k` threads have finished, except for the late one. */
  ghost predicate Finished(s: State, k: nat) {
    forall i: nat | i < k && i < |s.producers| && i != NODE_SIZE :: s.producers[i].Idle?
  }

  lemma OneFinishes(p: State -> bool, s: State, k: nat) returns (s': State)
    requires Closed(p) && Sound(p) && p(s) && Late(s) && Finished(s, k) && k < THREADS
    ensures p(s') && Late(s') && Finished(s', k + 1)
  {
    if k == NODE_SIZE {
      s' := s;
    } else {
      var n := AloneFinishes(s, k);
      AloneReached(p, s, k, n);
      s' := Alone(s, k, n);
    }
  }

  lemma {:induction false} OthersFinish(p: State -> bool, k: nat) returns (s: State)
    requires Closed(p) && Sound(p) && p(Init(THREADS)) && k <= THREADS
    ensures p(s) && Late(s) && Finished(s, k)
  {
    if k == 0 {
      s := LateStart(p);
    } else {
      s := OthersFinish(p, k - 1);
      s := OneFinishes(p, s, k - 1);
    }
  }

  lemma LateMoves(p: State -> bool, s: State, s': State, next: Producer)
    requires Closed(p) && p(s) && |s.producers| == |s'.producers| == THREADS
    requires ProducerStep(s, NODE_SIZE, 0) == At(s', NODE_SIZE, next)
    ensures p(At(s', NODE_SIZE, next))
  {
    OnStep(p, s, Produce(NODE_SIZE, 0), At(s', NODE_SIZE, next));
  }

  /** The late producer stores the tail, and then its element, in the second buffer. */
  lemma ThrowsBack(p: State -> bool, s: State) returns (s': State)
    requires Closed(p) && Sound(p) && p(s) && Late(s) && Finished(s, THREADS)
    ensures p(s') && Quiet(s') && NothingTaken(s') && Position(s', s'.tailBuf) == 2
  {
    assert ProducerOk(s, NODE_SIZE);
    assert LinkOk(s.heap, s.h.chain, 1);
    var s1 := s.(tailBuf := 1);
    LateMoves(p, s, s1, LoadTail(LateOp()));
    LateMoves(p, At(s1, NODE_SIZE, LoadTail(LateOp())), s1, Locate(LateOp(), 1, NODE_SIZE));
    LateMoves(p, At(s1, NODE_SIZE, Locate(LateOp(), 1, NODE_SIZE)), s1, WriteData(LateOp(), 1, 0));
    var s2 := StoreCell(s1, 1, 0, Cell(s1, 1, 0).(data := 0));
    LateMoves(p, At(s1, NODE_SIZE, WriteData(LateOp(), 1, 0)), s2, SetFlag(LateOp(), 1, 0));
    var s3 := StoreCell(s2, 1, 0, Cell(s2, 1, 0).(isSet := 1));
    LateMoves(p, At(s2, NODE_SIZE, SetFlag(LateOp(), 1, 0)), s3, Idle);
    s' := At(s3, NODE_SIZE, Idle);
  }

  // ----- the consumer -----

  /** With nothing skipped, what waits is what was issued and not delivered. */
  lemma WaitingExactly(s: State, L: nat)
    requires Settled(s) && s.h.skipped == []
    ensures Waiting(s, L) <==> L < s.tail && !Delivered(s, L)
  {
    SettledSlot(s, L);
    assert AccountOk(s, L);
    if j: nat :| j < |s.h.deliveries| && s.h.deliveries[j].slot == L {
      assert DeliveryOk(s, j);
    }
  }

  /** Everything up to ticket `j` was delivered, in order; the tail is in the second buffer. */
  ghost predicate Drawn(s: State, j: nat) {
    && Settled(s) && s.consumer.Ready? && s.tail == THREADS && s.h.skipped == [] && Position(s, s.tailBuf) == 2
    && |s.h.deliveries| == j && (forall i: nat | i < j :: s.h.deliveries[i].slot == i)
    && (j > 0 ==> Position(s, s.headBuf) == (j - 1) / NODE_SIZE + 1)
  }

  lemma NextIsFirst(s: State, j: nat)
    requires Drawn(s, j) && j < THREADS
    ensures FirstWaiting(s, j)
  {
    forall L: nat | L <= j
      ensures Waiting(s, L) <==> L == j
    {
      WaitingExactly(s, L);
      if L < j {
        assert s.h.deliveries[L].slot == L;
      }
    }
  }

  lemma DrawsOne(p: State -> bool, s: State, j: nat) returns (s': State)
    requires Closed(p) && p(s) && Drawn(s, j) && j < 2 * NODE_SIZE
    ensures p(s') && Drawn(s', j + 1)
  {
    NextIsFirst(s, j);
    var n := CallDelivers(s, j);
    ConsumerReached(p, s, n);
    s' := ConsumerAlone(s, n);
  }

  lemma {:induction false} Draws(p: State -> bool, j: nat) returns (s: State)
    requires Closed(p) && Sound(p) && p(Init(THREADS)) && j <= 2 * NODE_SIZE
    ensures p(s) && Drawn(s, j)
  {
    if j == 0 {
      s := OthersFinish(p, THREADS);
      s := ThrowsBack(p, s);
    } else {
      s := Draws(p, j - 1);
      s := DrawsOne(p, s, j - 1);
    }
  }

  /**
   There is a run after which every `enqueue` has returned and an element waits, and no number of calls
   of `dequeue` delivers anything.
   */
  lemma ElementStuck() returns (threads: nat, states: seq<State>, actions: seq<Action>)
    ensures IsRun(threads, states, actions) && Quiet(states[|actions|]) && Waiting(states[|actions|], 2 * NODE_SIZE)
    ensures forall n: nat :: ConsumerAlone(states[|actions|], n).h.deliveries == states[|actions|].h.deliveries
  {
    ReachableClosed(THREADS);
    ReachableSound(THREADS);
    var s := Draws(s => Reachable(THREADS, s), 2 * NODE_SIZE);
    NextIsFirst(s, 2 * NODE_SIZE);
    assert Stuck(s, 2 * NODE_SIZE);
    forall n: nat
      ensures ConsumerAlone(s, n).h.deliveries == s.h.deliveries
    {
      StuckForever(s, 2 * NODE_SIZE, n);
    }
    states, actions :| IsRun(THREADS, states, actions) && states[|actions|] == s;
    threads := THREADS;
  }
}
