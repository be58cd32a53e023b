/**
 No thread can block another one's `enqueue`: from every reachable state a producer that runs alone finishes,
 within a number of steps given by how far `tail_of_queue_` is from the buffer of its ticket.
 */
module MpscProgress {
  import opened Wrappers
  import opened MpscQueue
  import opened MpscInvariant
  import opened MpscTheorems

  // ----- a measure of the remaining work -----

  ghost function Position(s: State, buf: nat): nat {
    if buf < |s.heap| then s.heap[buf].position else 0
  }

  /** Position of the buffer that holds the ticket's cell. */
  ghost function Home(op: Enqueue): nat {
    op.location / NODE_SIZE + 1
  }

  /** Steps from loading a tail at position `p`: back one buffer a step, or forward with at most six steps a buffer. */
  ghost function FromTail(home: nat, p: nat): nat {
    if p >= home then 6 + p - home else 6 + 6 * (home - p)
  }

  ghost function NextOf(s: State, buf: nat): Option<nat> {
    if buf < |s.heap| then s.heap[buf].next else None
  }

  /** Position of the tail after the compare-and-swap from `buf` to `next`. */
  ghost function AdvancedTail(s: State, buf: nat, next: nat): nat {
    Position(s, if s.tailBuf == buf then next else s.tailBuf)
  }

  ghost function FromNext(s: State, op: Enqueue, buf: nat): nat {
    if NextOf(s, buf).None? then 4 + FromTail(Home(op), Position(s, buf) + 1)
    else 2 + FromTail(Home(op), AdvancedTail(s, buf, NextOf(s, buf).value))
  }

  ghost function Remaining(s: State, p: Producer): nat {
    match p
    case Idle => 0
    case LinkAhead(_, _) => 1
    case AllocAhead(_) => 2
    case SetFlag(_, _, _) => 3
    case WriteData(_, _, _) => 4
    case LoadTail(op) => FromTail(Home(op), Position(s, s.tailBuf))
    case Locate(op, buf, _) =>
      if Position(s, buf) >= Home(op) then 5 + Position(s, buf) - Home(op) else 1 + FromNext(s, op, buf)
    case LoadNext(op, buf) => FromNext(s, op, buf)
    case Alloc(op, buf) =>
      if NextOf(s, buf).None? then 3 + FromTail(Home(op), Position(s, buf) + 1)
      else 2 + FromTail(Home(op), Position(s, s.tailBuf))
    case Link(op, buf, newArr) =>
      if NextOf(s, buf).None? then 2 + FromTail(Home(op), Position(s, newArr))
      else 1 + FromTail(Home(op), Position(s, s.tailBuf))
    case StoreTail(op, newArr) => 1 + FromTail(Home(op), Position(s, newArr))
    case AdvanceTail(op, buf, next) => 1 + FromTail(Home(op), AdvancedTail(s, buf, next))
  }

  /** The work left after one more step of producer `i`. */
  ghost function RemainingAfter(s: State, i: nat): nat
    requires i < |s.producers|
  {
    var s' := ProducerStep(s, i, 0);
    if i < |s'.producers| then Remaining(s', s'.producers[i]) else 0
  }

  lemma NextPosition(s: State, buf: nat)
    requires ChainOk(s.heap, s.h.chain) && InChain(s.heap, s.h.chain, buf)
    ensures s.heap[buf].position >= 1
    ensures s.heap[buf].next.Some? ==> Position(s, s.heap[buf].next.value) == s.heap[buf].position + 1
    ensures s.heap[buf].position >= 2 ==>
      s.heap[buf].prev.Some? && Position(s, s.heap[buf].prev.value) == s.heap[buf].position - 1
  {
    var k := s.heap[buf].position - 1;
    assert LinkOk(s.heap, s.h.chain, k);
    if k + 1 < |s.h.chain| {
      assert LinkOk(s.heap, s.h.chain, k + 1);
    }
    if k >= 1 {
      assert LinkOk(s.heap, s.h.chain, k - 1);
    }
  }

  lemma HomeOf(location: nat, position: nat)
    requires position >= 1
    ensures location < NODE_SIZE * (position - 1) <==> location / NODE_SIZE + 1 < position
    ensures location < NODE_SIZE * position <==> location / NODE_SIZE + 1 <= position
  {
  }

  lemma LoadTailDrops(s: State, i: nat, op: Enqueue)
    requires SharedOk(s) && i < |s.producers| && s.producers[i] == LoadTail(op)
    ensures RemainingAfter(s, i) < Remaining(s, s.producers[i])
  {
    NextPosition(s, s.tailBuf);
  }

  lemma LocateDrops(s: State, i: nat, op: Enqueue, buf: nat, prevSize: int)
    requires SharedOk(s) && i < |s.producers| && s.producers[i] == Locate(op, buf, prevSize)
    requires LocalOk(s, i, s.producers[i])
    ensures RemainingAfter(s, i) < Remaining(s, s.producers[i])
  {
    NextPosition(s, buf);
    HomeOf(op.location, s.heap[buf].position);
  }

  lemma StoringDrops(s: State, i: nat)
    requires SharedOk(s) && i < |s.producers| && LocalOk(s, i, s.producers[i])
    requires var p := s.producers[i]; p.WriteData? || p.SetFlag? || p.AllocAhead? || p.LinkAhead?
    ensures RemainingAfter(s, i) < Remaining(s, s.producers[i])
  {
    if s.producers[i].WriteData? || s.producers[i].SetFlag? {
      var p := s.producers[i];
      assert LinkOk(s.heap, s.h.chain, s.heap[p.buf].position - 1);
    }
  }

  lemma LoadNextDrops(s: State, i: nat, op: Enqueue, buf: nat)
    requires SharedOk(s) && i < |s.producers| && s.producers[i] == LoadNext(op, buf)
    requires LocalOk(s, i, s.producers[i])
    ensures RemainingAfter(s, i) < Remaining(s, s.producers[i])
  {
  }

  lemma AllocDrops(s: State, i: nat, op: Enqueue, buf: nat)
    requires SharedOk(s) && i < |s.producers| && s.producers[i] == Alloc(op, buf)
    requires LocalOk(s, i, s.producers[i])
    ensures RemainingAfter(s, i) < Remaining(s, s.producers[i])
  {
  }

  lemma LinkDrops(s: State, i: nat, op: Enqueue, buf: nat, newArr: nat)
    requires SharedOk(s) && i < |s.producers| && s.producers[i] == Link(op, buf, newArr)
    requires LocalOk(s, i, s.producers[i])
    ensures RemainingAfter(s, i) < Remaining(s, s.producers[i])
  {
  }

  lemma TailDrops(s: State, i: nat)
    requires SharedOk(s) && i < |s.producers| && LocalOk(s, i, s.producers[i])
    requires s.producers[i].StoreTail? || s.producers[i].AdvanceTail?
    ensures RemainingAfter(s, i) < Remaining(s, s.producers[i])
  {
  }

  /** Every step of an unfinished `enqueue` brings it closer to its end. */
  lemma RemainingDrops(s: State, i: nat)
    requires SharedOk(s) && i < |s.producers| && LocalOk(s, i, s.producers[i]) && !s.producers[i].Idle?
    ensures RemainingAfter(s, i) < Remaining(s, s.producers[i])
  {
    match s.producers[i]
    case LoadTail(op) => LoadTailDrops(s, i, op);
    case Locate(op, buf, prevSize) => LocateDrops(s, i, op, buf, prevSize);
    case LoadNext(op, buf) => LoadNextDrops(s, i, op, buf);
    case Alloc(op, buf) => AllocDrops(s, i, op, buf);
    case Link(op, buf, newArr) => LinkDrops(s, i, op, buf, newArr);
    case StoreTail(_, _) => TailDrops(s, i);
    case AdvanceTail(_, _, _) => TailDrops(s, i);
    case _ => StoringDrops(s, i);
  }

  // ----- running alone -----

  /** The state after `n` steps of producer `i` alone. */
  ghost function Alone(s: State, i: nat, n: nat): State
    decreases n
  {
    if n == 0 then s else Alone(Step(s, Produce(i, 0)), i, n - 1)
  }

  /** What the other threads and the consumer stand at and have done is the same; no ticket was taken. */
  ghost predicate OthersKept(s: State, s': State, i: nat) {
    && |s'.producers| == |s.producers|
    && (forall j: nat | j < |s.producers| && j != i :: s'.producers[j] == s.producers[j])
    && s'.consumer == s.consumer && s'.tail == s.tail
    && s'.h.deliveries == s.h.deliveries && s'.h.skipped == s.h.skipped
    && |s.heap| <= |s'.heap| && forall b: nat | b < |s.heap| :: s'.heap[b].position == s.heap[b].position
  }

  lemma StoringKeepsOthers(s: State, i: nat)
    requires i < |s.producers| && (s.producers[i].WriteData? || s.producers[i].SetFlag?)
    ensures OthersKept(s, ProducerStep(s, i, 0), i)
  {
  }

  lemma GrowingKeepsOthers(s: State, i: nat)
    requires i < |s.producers|
    requires var p := s.producers[i]; p.AllocAhead? || p.LinkAhead? || p.Alloc? || p.Link?
    ensures OthersKept(s, ProducerStep(s, i, 0), i)
  {
  }

  lemma StepKeepsOthers(s: State, i: nat)
    requires i < |s.producers| && !s.producers[i].Idle?
    ensures OthersKept(s, ProducerStep(s, i, 0), i)
  {
    var p := s.producers[i];
    if p.WriteData? || p.SetFlag? {
      StoringKeepsOthers(s, i);
    } else if p.AllocAhead? || p.LinkAhead? || p.Alloc? || p.Link? {
      GrowingKeepsOthers(s, i);
    }
  }

  lemma OthersStillKept(s: State, s': State, s'': State, i: nat)
    requires OthersKept(s, s', i) && OthersKept(s', s'', i)
    ensures OthersKept(s, s'', i)
  {
  }

  /** Ticket `L` keeps its owner and its payload. */
  ghost predicate SameTicket(s: State, s': State, L: nat) {
    && L < |s.h.owner| && L < |s.h.issued| && L < |s'.h.owner| && L < |s'.h.issued|
    && s'.h.owner[L] == s.h.owner[L] && s'.h.issued[L] == s.h.issued[L]
  }

  ghost predicate SameTickets(s: State, s': State) {
    forall L: nat | L < |s.h.owner| && L < |s.h.issued| :: SameTicket(s, s', L)
  }

  lemma StillSameTickets(s: State, s': State, s'': State)
    requires SameTickets(s, s') && SameTickets(s', s'')
    ensures SameTickets(s, s'')
  {
    forall L: nat | L < |s.h.owner| && L < |s.h.issued|
      ensures SameTicket(s, s'', L)
    {
      assert SameTicket(s, s', L) && SameTicket(s', s'', L);
    }
  }

  lemma StepKeepsTicket(s: State, i: nat, L: nat)
    requires i < |s.producers| && L < |s.h.owner| && L < |s.h.issued|
    ensures SameTicket(s, ProducerStep(s, i, 0), L)
  {
  }

  /** One step of an unfinished `enqueue`. */
  lemma AloneStep(s: State, i: nat, s': State)
    requires Inv(s) && i < |s.producers| && !s.producers[i].Idle? && s' == Step(s, Produce(i, 0))
    ensures Inv(s') && OthersKept(s, s', i) && Remaining(s', s'.producers[i]) < Remaining(s, s.producers[i])
    ensures SameTickets(s, s')
  {
    StepInv(s, Produce(i, 0));
    StepKeepsOthers(s, i);
    assert ProducerOk(s, i);
    RemainingDrops(s, i);
    forall L: nat | L < |s.h.owner| && L < |s.h.issued|
      ensures SameTicket(s, s', L)
    {
      StepKeepsTicket(s, i, L);
    }
  }

  /** Producer `i` has returned, and nothing else was disturbed. */
  ghost predicate Returned(s: State, s': State, i: nat) {
    Inv(s') && OthersKept(s, s', i) && SameTickets(s, s') && i < |s'.producers| && s'.producers[i] == Idle
  }

  lemma StepThenReturned(s: State, s': State, s'': State, i: nat)
    requires OthersKept(s, s', i) && SameTickets(s, s') && Returned(s', s'', i)
    ensures Returned(s, s'', i)
  {
    OthersStillKept(s, s', s'', i);
    StillSameTickets(s, s', s'');
  }

  lemma {:induction false} AloneFinishes(s: State, i: nat) returns (n: nat)
    requires Inv(s) && i < |s.producers|
    ensures n <= Remaining(s, s.producers[i]) && Returned(s, Alone(s, i, n), i)
    decreases Remaining(s, s.producers[i])
  {
    if s.producers[i].Idle? {
      return 0;
    }
    var s' := Step(s, Produce(i, 0));
    AloneStep(s, i, s');
    var m := AloneFinishes(s', i);
    StepThenReturned(s, s', Alone(s', i, m), i);
    n := m + 1;
  }

  /**
   In every reachable state, an `enqueue` that runs alone from there on returns within `Remaining` steps, and
   its element is then in the cell of its ticket, whatever the other threads were doing when they stopped.
   */
  lemma EnqueueFinishesAlone(threads: nat, states: seq<State>, actions: seq<Action>, k: nat, i: nat, L: nat)
    returns (n: nat)
    requires IsRun(threads, states, actions) && k < |states|
    requires i < |states[k].producers| && Holds(states[k].producers[i], L)
    ensures n <= Remaining(states[k], states[k].producers[i])
    ensures var end := Alone(states[k], i, n);
      && i < |end.producers| && end.producers[i] == Idle
      && Slot(end.heap, end.h.chain, L).isSet != 0
      && L < |states[k].h.issued| && Slot(end.heap, end.h.chain, L).data == states[k].h.issued[L]
  {
    var s := states[k];
    RunInv(threads, states, actions, k);
    assert ProducerOk(s, i);
    n := AloneFinishes(s, i);
    assert SameTicket(s, Alone(s, i, n), L);
    assert SlotOk(Alone(s, i, n), L);
  }
}
