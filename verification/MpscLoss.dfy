/**
 A run in which an element is lost. Tickets 0 to N+2 are given out, where N is the size of a buffer. Ticket N+2 is
 published in cell 2 of the second buffer, and ticket N+1 is about to be published in cell 1. The consumer finds the
 head cell empty and probes up to cell 2 of the second buffer. Ticket N+1 is published now, so the scan
 chooses cell 1 instead, and delivering it moves the head of the second buffer past cell 0, the cell of ticket N.
 */
module MpscLoss {
  import opened Wrappers
  import opened MpscQueue
  import opened MpscTheorems
  import opened MpscRuns

  // ----- the consumer over empty cells -----

  /** The head cell exists and is empty. */
  ghost predicate HeadEmpty(s: State) {
    ValidHead(s) && HeadFlag(s) == 0
  }

  ghost function Saw(s: State, c: Consumer): State {
    s.(consumer := c, h := s.h.(sawPending := true))
  }

  /** The locals after probing an empty cell. */
  ghost function Probed(l: Locals): Locals {
    l.(tnBuf := l.buf, tnIndex := l.temphead, temphead := l.temphead + 1, retargeted := false, allHandled := false)
  }

  /** The cells of a buffer from `from` to `to` are empty. */
  ghost predicate EmptyCells(s: State, buf: nat, from: nat, to: nat) {
    && buf < |s.heap| && to <= |s.heap[buf].cells|
    && forall k: nat | from <= k < to :: s.heap[buf].cells[k].isSet == 0
  }

  /** From a full probe of an empty cell to the test whether the buffer ends. */
  lemma ProbeEmpty(p: State -> bool, s: State, l: Locals)
    requires Closed(p) && p(s)
    requires s.consumer == WaitHead(l) && HeadEmpty(s)
    requires l.temphead < NODE_SIZE && EmptyCells(s, l.buf, l.temphead, l.temphead + 1)
    ensures p(Saw(s, NextBuffer(Probed(l))))
  {
    var l' := l.(tnBuf := l.buf, tnIndex := l.temphead, temphead := l.temphead + 1, retargeted := false);
    OnStep(p, s, Consume, Saw(s, Probe(l)));
    OnStep(p, Saw(s, Probe(l)), Consume, Saw(s, Recheck(l')));
    OnStep(p, Saw(s, Recheck(l')), Consume, Saw(s, NextBuffer(Probed(l))));
  }

  lemma ProbeRound(p: State -> bool, s: State, l: Locals)
    requires Closed(p) && p(s)
    requires s.consumer == WaitHead(l) && HeadEmpty(s)
    requires l.temphead + 1 < NODE_SIZE && EmptyCells(s, l.buf, l.temphead, l.temphead + 1)
    ensures p(Saw(s, WaitHead(Probed(l))))
  {
    ProbeEmpty(p, s, l);
    OnStep(p, Saw(s, NextBuffer(Probed(l))), Consume, Saw(s, WaitHead(Probed(l))));
  }

  /** The locals after probing empty cells up to `to`. */
  ghost function Reached(l: Locals, to: nat): Locals
    requires to > 0
  {
    l.(tnBuf := l.buf, tnIndex := to - 1, temphead := to, retargeted := false, allHandled := false)
  }

  lemma {:induction false} ProbeRounds(p: State -> bool, s: State, l: Locals, n: nat)
    requires Closed(p) && p(s)
    requires s.consumer == WaitHead(l) && HeadEmpty(s)
    requires n > 0 && l.temphead + n < NODE_SIZE && EmptyCells(s, l.buf, l.temphead, l.temphead + n)
    ensures p(Saw(s, WaitHead(Reached(l, l.temphead + n))))
    decreases n
  {
    ProbeRound(p, s, l);
    if n > 1 {
      var l1 := Probed(l);
      var s1 := Saw(s, WaitHead(l1));
      assert EmptyCells(s1, l1.buf, l1.temphead, l1.temphead + (n - 1));
      ProbeRounds(p, s1, l1, n - 1);
    }
  }

  /** The last cell of a buffer, and on to the next one. */
  lemma ProbeLast(p: State -> bool, s: State, l: Locals, next: nat)
    requires Closed(p) && p(s)
    requires s.consumer == WaitHead(l) && HeadEmpty(s)
    requires l.temphead == NODE_SIZE - 1 && EmptyCells(s, l.buf, l.temphead, NODE_SIZE)
    requires s.heap[l.buf].next == Some(next) && next < |s.heap|
    ensures var l' := Probed(l).(buf := next, temphead := s.heap[next].head, moved := true, allHandled := true);
      p(Saw(s, WaitHead(l')))
  {
    var l' := Probed(l).(buf := next, temphead := s.heap[next].head, moved := true, allHandled := true);
    ProbeEmpty(p, s, l);
    OnStep(p, Saw(s, NextBuffer(Probed(l))), Consume, Saw(s, WaitHead(l')));
  }

  lemma ScanEmpty(p: State -> bool, s: State, l: Locals)
    requires Closed(p) && p(s)
    requires s.consumer == ScanTest(l) && l.scanBuf != l.buf && s.headBuf < |s.heap|
    requires l.scanhead < NODE_SIZE && EmptyCells(s, l.scanBuf, l.scanhead, l.scanhead + 1)
    ensures p(Go(s, ScanTest(l.(scanhead := l.scanhead + 1))))
  {
    OnStep(p, s, Consume, Go(s, ScanStep(l)));
    OnStep(p, Go(s, ScanStep(l)), Consume, Go(s, ScanTest(l.(scanhead := l.scanhead + 1))));
  }

  lemma {:induction false} ScanRounds(p: State -> bool, s: State, l: Locals, n: nat)
    requires Closed(p) && p(s)
    requires s.consumer == ScanTest(l) && l.scanBuf != l.buf && s.headBuf < |s.heap|
    requires l.scanhead + n <= NODE_SIZE && EmptyCells(s, l.scanBuf, l.scanhead, l.scanhead + n)
    ensures p(Go(s, ScanTest(l.(scanhead := l.scanhead + n))))
    decreases n
  {
    if n == 0 {
      assert Go(s, ScanTest(l.(scanhead := l.scanhead + n))) == s;
    } else {
      var l1 := l.(scanhead := l.scanhead + 1);
      var s1 := Go(s, ScanTest(l1));
      ScanEmpty(p, s, l);
      assert EmptyCells(s1, l1.scanBuf, l1.scanhead, l1.scanhead + (n - 1));
      ScanRounds(p, s1, l1, n - 1);
    }
  }

  /** Scanning the rest of a buffer, and on to the cell after the head of the next one. */
  lemma ScanBuffer(p: State -> bool, s: State, l: Locals, next: nat)
    requires Closed(p) && p(s)
    requires s.consumer == ScanTest(l) && l.scanBuf != l.buf && s.headBuf < |s.heap|
    requires l.scanhead <= NODE_SIZE && EmptyCells(s, l.scanBuf, l.scanhead, NODE_SIZE)
    requires s.heap[l.scanBuf].next == Some(next) && next < |s.heap|
    ensures p(Go(s, ScanTest(l.(scanBuf := next, scanhead := s.heap[next].head + 1))))
  {
    var l1 := l.(scanhead := NODE_SIZE);
    ScanRounds(p, s, l, NODE_SIZE - l.scanhead);
    OnStep(p, Go(s, ScanTest(l1)), Consume, Go(s, ScanStep(l1)));
    OnStep(p, Go(s, ScanStep(l1)), Consume, Go(s, ScanTest(l.(scanBuf := next, scanhead := s.heap[next].head + 1))));
  }

  // ----- the producers -----

  const THREADS: nat := NODE_SIZE + 3

  lemma SameCell(s: State, b: nat, c: nat)
    requires ValidCell(s, b, c)
    ensures StoreCell(s, b, c, Cell(s, b, c)) == s
  {
    assert s.heap[b].cells[c := s.heap[b].cells[c]] == s.heap[b].cells;
    assert s.heap[b := s.heap[b]] == s.heap;
  }

  /** A producer whose cell is in the tail buffer stores its data. */
  lemma StoresData(p: State -> bool, s: State, i: nat, op: Enqueue, c: nat)
    requires Closed(p) && i < |s.producers| && p(At(s, i, LoadTail(op)))
    requires op.data == 0 && op.location == NODE_SIZE + c
    requires c < NODE_SIZE && |s.heap| == 2 && s.tailBuf == 1 && s.heap[1].position == 2
    requires |s.heap[1].cells| == NODE_SIZE && s.heap[1].cells[c].data == 0
    ensures p(At(s, i, SetFlag(op, 1, c)))
  {
    Moves(p, s, i, LoadTail(op), Locate(op, 1, NODE_SIZE));
    Moves(p, s, i, Locate(op, 1, NODE_SIZE), WriteData(op, 1, c));
    SameCell(At(s, i, WriteData(op, 1, c)), 1, c);
    Moves(p, s, i, WriteData(op, 1, c), SetFlag(op, 1, c));
  }

  // ----- the run -----

  /** Two buffers, cell 2 of the second one set, cell 1 in state `flag`, everything else empty. */
  ghost predicate Scene(s: State, flag: nat) {
    && |s.heap| == 2 && s.headBuf == 0 && s.tailBuf == 1 && s.h.chain == [0, 1] && s.h.deliveries == []
    && s.heap[0].head == 0 && s.heap[0].position == 1 && s.heap[0].next == Some(1)
    && |s.heap[0].cells| == NODE_SIZE && EmptyCells(s, 0, 0, NODE_SIZE)
    && s.heap[1].head == 0 && s.heap[1].position == 2 && |s.heap[1].cells| == NODE_SIZE
    && s.heap[1].cells[0].isSet == 0 && s.heap[1].cells[1].isSet == flag && s.heap[1].cells[2].isSet == 1
  }

  /** Thread N+1 is about to publish its element. */
  ghost predicate AboutToPublish(s: State) {
    |s.producers| == THREADS && s.producers[NODE_SIZE + 1] == SetFlag(Enqueue(NODE_SIZE + 1, 0, false), 1, 1)
  }

  lemma SecondBufferLinked(p: State -> bool) returns (s: State)
    requires Closed(p) && p(Init(THREADS))
    ensures p(s) && s == SecondLinked(Ticketed(THREADS, THREADS), NODE_SIZE + 2).(tailBuf := 1)
  {
    var s0 := Ticketed(THREADS, THREADS);
    var i, op := NODE_SIZE + 2, Enqueue(NODE_SIZE + 2, 0, false);
    TicketsTaken(p, THREADS, THREADS);
    assert s0.producers[i := LoadTail(op)] == s0.producers;
    assert At(s0, i, LoadTail(op)) == s0;
    FindsNoRoom(p, s0, i, op);
    LinksSecond(p, s0, i, op);
    var s1 := At(SecondLinked(s0, i), i, StoreTail(op, 1));
    s := SecondLinked(s0, i).(tailBuf := 1);
    assert s1.producers[i := LoadTail(op)] == s0.producers;
    OnStep(p, s1, Produce(i, 0), s);
  }

  lemma SetUp(p: State -> bool) returns (s: State)
    requires Closed(p) && p(Init(THREADS))
    ensures p(s) && Scene(s, 0) && AboutToPublish(s) && s.consumer == Ready
  {
    var s1 := SecondBufferLinked(p);
    var i, op := NODE_SIZE + 2, Enqueue(NODE_SIZE + 2, 0, false);
    assert s1.producers[i := LoadTail(op)] == s1.producers && At(s1, i, LoadTail(op)) == s1;
    StoresData(p, s1, i, op, 2);
    var s2 := At(s1, i, SetFlag(op, 1, 2));
    var s3 := At(StoreCell(s2, 1, 2, Node(0, 1)), i, Idle);
    OnStep(p, s2, Produce(i, 0), s3);
    var j, op1 := NODE_SIZE + 1, Enqueue(NODE_SIZE + 1, 0, false);
    assert s3.producers[j := LoadTail(op1)] == s3.producers && At(s3, j, LoadTail(op1)) == s3;
    StoresData(p, s3, j, op1, 1);
    s := At(s3, j, SetFlag(op1, 1, 1));
  }

  /** The consumer enters its loop and finds the head cell empty. */
  lemma Enters(p: State -> bool, s: State)
    requires Closed(p) && p(s) && Scene(s, 0) && s.consumer == Ready
    ensures p(Go(s, WaitHead(Start(s))))
  {
    OnStep(p, s, Consume, Go(s, LoadTailBuffer));
    OnStep(p, Go(s, LoadTailBuffer), Consume, Go(s, CheckTailBuffer(NODE_SIZE)));
    OnStep(p, Go(s, CheckTailBuffer(NODE_SIZE)), Consume, Go(s, LoadHead));
    OnStep(p, Go(s, LoadHead), Consume, Go(s, WaitHead(Start(s))));
  }

  /** Before the probe of cell 2 of the second buffer. */
  ghost function BeforeCellTwo(): Locals {
    Locals(1, 2, true, false, 1, 1, 0, 0, false)
  }

  lemma ProbesFirstBuffer(p: State -> bool, s: State)
    requires Closed(p) && Scene(s, 0) && p(Go(s, WaitHead(Start(s))))
    ensures p(Saw(s, WaitHead(Locals(1, 0, true, true, 0, NODE_SIZE - 1, 0, 0, false))))
  {
    var l := Start(s);
    ProbeRounds(p, Go(s, WaitHead(l)), l, NODE_SIZE - 1);
    var l1 := Reached(l, NODE_SIZE - 1);
    var s1 := Saw(s, WaitHead(l1));
    assert Saw(Go(s, WaitHead(l)), WaitHead(l1)) == s1;
    ProbeLast(p, s1, l1, 1);
    assert Saw(s1, WaitHead(Locals(1, 0, true, true, 0, NODE_SIZE - 1, 0, 0, false)))
        == Saw(s, WaitHead(Locals(1, 0, true, true, 0, NODE_SIZE - 1, 0, 0, false)));
  }

  lemma ProbesCellTwo(p: State -> bool, s: State)
    requires Closed(p) && Scene(s, 0) && p(Saw(s, WaitHead(Locals(1, 0, true, true, 0, NODE_SIZE - 1, 0, 0, false))))
    ensures p(Saw(s, ProbeHead(BeforeCellTwo().(tnIndex := 2, temphead := 3))))
  {
    var l := Locals(1, 0, true, true, 0, NODE_SIZE - 1, 0, 0, false);
    var s1 := Saw(s, WaitHead(l));
    assert EmptyCells(s1, 1, 0, 2);
    ProbeRounds(p, s1, l, 2);
    assert Reached(l, 2) == BeforeCellTwo();
    var s2 := Saw(s, WaitHead(BeforeCellTwo()));
    assert Saw(s1, WaitHead(BeforeCellTwo())) == s2;
    OnStep(p, s2, Consume, Saw(s, Probe(BeforeCellTwo())));
    OnStep(p, Saw(s, Probe(BeforeCellTwo())), Consume,
           Saw(s, ProbeHead(BeforeCellTwo().(tnIndex := 2, temphead := 3))));
  }

  /** Now ticket N+1 is published. */
  lemma Publishes(p: State -> bool, s: State) returns (s': State)
    requires Closed(p) && p(s) && Scene(s, 0) && AboutToPublish(s)
    ensures p(s') && Scene(s', 1) && s'.consumer == s.consumer
  {
    var i := NODE_SIZE + 1;
    s' := ProducerStep(s, i, 0);
    OnStep(p, s, Produce(i, 0), s');
  }

  lemma ScansToCellOne(p: State -> bool, s: State, l: Locals)
    requires Closed(p) && p(s) && Scene(s, 1) && s.consumer == ProbeHead(l) && l.buf == 1 && l.temphead == 3
    ensures var l' := l.(temphead := 1, tnBuf := 1, tnIndex := 1, scanBuf := 0, scanhead := 1, retargeted := true);
      p(Go(s, ScanTest(l')))
  {
    var l1 := l.(scanBuf := 0, scanhead := 0);
    OnStep(p, s, Consume, Go(s, ScanTest(l1)));
    ScanBuffer(p, Go(s, ScanTest(l1)), l1, 1);
    var l2 := l.(scanBuf := 1, scanhead := 1);
    OnStep(p, Go(s, ScanTest(l2)), Consume, Go(s, ScanStep(l2)));
    var l3 := l.(temphead := 1, tnBuf := 1, tnIndex := 1, scanBuf := 0, scanhead := 1, retargeted := true);
    OnStep(p, Go(s, ScanStep(l2)), Consume, Go(s, ScanTest(l3)));
  }

  lemma TakesCellOne(p: State -> bool, s: State, l: Locals)
    requires Closed(p) && p(s) && Scene(s, 1) && s.consumer == ScanTest(l)
    requires l.buf == 1 && l.temphead == 1 && l.tnBuf == 1 && l.tnIndex == 1 && l.scanBuf == 0 && l.scanhead == 1
    ensures p(Go(s, MarkTaken(l.(scanBuf := 1), s.heap[1].cells[1].data)))
  {
    ScanBuffer(p, s, l, 1);
    var l1 := l.(scanBuf := 1);
    OnStep(p, Go(s, ScanTest(l1)), Consume, Go(s, ScanDone(l1)));
    OnStep(p, Go(s, ScanDone(l1)), Consume, Go(s, TakeData(l1)));
    OnStep(p, Go(s, TakeData(l1)), Consume, Go(s, MarkTaken(l1, s.heap[1].cells[1].data)));
  }

  /** Delivering cell 1 moves the head past cell 0. */
  lemma Loses(s: State, l: Locals, data: int)
    requires Scene(s, 1) && s.consumer == MarkTaken(l, data)
    requires l.buf == 1 && l.moved && l.temphead == 1 && l.tnBuf == 1 && l.tnIndex == 1
    ensures Lost(ConsumerStep(s), NODE_SIZE)
  {
    var s' := ConsumerStep(s);
    assert s'.h.deliveries == [Delivery(NODE_SIZE + 1, data)];
    assert s'.heap[1].head == 1;
  }

  lemma ReachesLoss(p: State -> bool) returns (s: State)
    requires Closed(p) && p(Init(THREADS))
    ensures p(s) && Lost(s, NODE_SIZE)
  {
    var s0 := SetUp(p);
    Enters(p, s0);
    ProbesFirstBuffer(p, s0);
    ProbesCellTwo(p, s0);
    var l := BeforeCellTwo().(tnIndex := 2, temphead := 3);
    var s1 := Publishes(p, Saw(s0, ProbeHead(l)));
    ScansToCellOne(p, s1, l);
    var l1 := l.(temphead := 1, tnBuf := 1, tnIndex := 1, scanBuf := 0, scanhead := 1, retargeted := true);
    var s2 := Go(s1, ScanTest(l1));
    TakesCellOne(p, s2, l1);
    var s3 := Go(s2, MarkTaken(l1.(scanBuf := 1), s2.heap[1].cells[1].data));
    Loses(s3, l1.(scanBuf := 1), s2.heap[1].cells[1].data);
    s := ConsumerStep(s3);
    OnStep(p, s3, Consume, s);
  }

  /** There is a run that loses an element: ticket N is passed by the head of its buffer without being delivered. */
  lemma ElementLost() returns (threads: nat, states: seq<State>, actions: seq<Action>)
    ensures IsRun(threads, states, actions) && Lost(states[|states| - 1], NODE_SIZE)
  {
    ReachableClosed(THREADS);
    var s := ReachesLoss(s => Reachable(THREADS, s));
    states, actions :| IsRun(THREADS, states, actions) && states[|actions|] == s;
    threads := THREADS;
  }
}
