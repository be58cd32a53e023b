/**
 No thread can block the consumer either: from every reachable state a `dequeue` that runs alone returns, within a
 number of steps given by the number of buffers.
 */
module MpscDequeue {
  import opened Integers
  import opened MpscQueue
  import opened MpscInvariant
  import opened MpscTheorems
  import opened MpscProgress
  import opened MpscConsumerProof

  // ----- places in the chain -----

  /** What a buffer takes up when its cells and the two indices behind them are counted. */
  const STRIDE: nat := NODE_SIZE + 2

  ghost function Space(s: State): nat {
    STRIDE * |s.h.chain|
  }

  /** A place in the chain; an index past the end counts as the last one. */
  ghost function PlaceAt(s: State, buf: nat, index: nat): int {
    STRIDE * (Position(s, buf) - 1) + if index < STRIDE then index else STRIDE - 1
  }

  /** How far a place is from the end of the chain. */
  ghost function ToEnd(s: State, buf: nat, index: nat): nat {
    if PlaceAt(s, buf, index) <= Space(s) then Space(s) - PlaceAt(s, buf, index) else 0
  }

  lemma PlaceInside(s: State, buf: nat, index: nat)
    requires InChain(s.heap, s.h.chain, buf)
    ensures 0 <= PlaceAt(s, buf, index) < Space(s) && ToEnd(s, buf, index) == Space(s) - PlaceAt(s, buf, index)
    ensures 1 <= ToEnd(s, buf, index) <= Space(s)
  {
  }

  /** Nearer to the head, by the buffer or within it. */
  lemma PlaceBefore(s: State, buf: nat, index: nat, buf': nat, index': nat)
    requires ChainOk(s.heap, s.h.chain) && InChain(s.heap, s.h.chain, buf) && InChain(s.heap, s.h.chain, buf')
    requires s.heap[buf'].position <= s.heap[buf].position && (buf' == buf ==> index' < index && index' < STRIDE - 1)
    ensures PlaceAt(s, buf', index') < PlaceAt(s, buf, index)
  {
    if buf' != buf {
      assert s.heap[buf'].position < s.heap[buf].position;
    }
  }

  lemma NextPlace(s: State, buf: nat, index: nat, index': nat)
    requires ChainOk(s.heap, s.h.chain) && InChain(s.heap, s.h.chain, buf) && s.heap[buf].next.Some?
    ensures InChain(s.heap, s.h.chain, s.heap[buf].next.value)
    ensures ToEnd(s, s.heap[buf].next.value, index') < ToEnd(s, buf, index)
  {
    var k, next := s.heap[buf].position - 1, s.heap[buf].next.value;
    assert LinkOk(s.heap, s.h.chain, k);
    assert LinkOk(s.heap, s.h.chain, k + 1);
    PlaceInside(s, buf, index);
    PlaceInside(s, next, index');
    PlaceBefore(s, next, index', buf, index);
  }

  lemma FollowingPlace(s: State, buf: nat, index: nat)
    requires InChain(s.heap, s.h.chain, buf) && index <= NODE_SIZE
    ensures ToEnd(s, buf, index + 1) == ToEnd(s, buf, index) - 1
  {
    PlaceInside(s, buf, index);
    PlaceInside(s, buf, index + 1);
  }

  // ----- a measure of the remaining work -----

  /** Steps of a scan up to a chosen cell at place `target`, with `left` places before the end of the chain. */
  ghost function Scanning(space: nat, target: nat, left: nat): nat {
    target * (2 * space + 4) + 2 * left + 3
  }

  ghost function LongestScan(space: nat): nat {
    Scanning(space, space, space) + 1
  }

  lemma ScanBound(space: nat, target: nat, left: nat)
    requires target <= space && left <= space
    ensures Scanning(space, target, left) < LongestScan(space)
  {
    Fewer(target, space, 2 * space + 4);
  }

  /** A new target nearer to the head pays for a new scan. */
  lemma Retargeted(space: nat, target: nat, left: nat, target': nat, left': nat)
    requires target' < target && left' <= space
    ensures Scanning(space, target', left') + 1 < Scanning(space, target, left)
  {
    Fewer(target', target, 2 * space + 4);
  }

  ghost function ScanSteps(s: State, l: Locals): nat {
    var target := PlaceAt(s, l.tnBuf, l.tnIndex);
    Scanning(Space(s), if target >= 0 then target else 0, ToEnd(s, l.scanBuf, l.scanhead))
  }

  ghost function ProbeSteps(s: State, l: Locals): nat {
    LongestScan(Space(s)) + 5 * ToEnd(s, l.buf, l.temphead)
  }

  ghost function HeadOf(s: State): nat {
    if s.headBuf < |s.heap| then s.heap[s.headBuf].head else 0
  }

  ghost function OuterSteps(s: State): nat {
    LongestScan(Space(s)) + 5 * Space(s) + 6 + 6 * ToEnd(s, s.headBuf, HeadOf(s))
  }

  /** A bound on the steps the consumer still needs. */
  ghost function StepsLeft(s: State): nat {
    match s.consumer
    case Ready => 0
    case TakeHead | MarkTaken(_, _) => 1
    case TakeData(_) => 2
    case ScanDone(_) => 3
    case ScanStep(l) => ScanSteps(s, l)
    case ScanTest(l) => ScanSteps(s, l) + 1
    case WaitHead(l) => ProbeSteps(s, l) + 5
    case Probe(l) => ProbeSteps(s, l) + 4
    case ProbeHead(l) => ProbeSteps(s, l) + 8
    case Recheck(l) => ProbeSteps(s, l) + 7
    case NextBuffer(l) => ProbeSteps(s, l) + if l.temphead < NODE_SIZE then 6 else 3
    case LeaveBuffer => OuterSteps(s) + if HeadOf(s) < NODE_SIZE then 7 else 2
    case EnterNext => OuterSteps(s) + 1
    case LoadHead => OuterSteps(s) + 3
    case CheckTail(_) => OuterSteps(s) + 4
    case CheckTailBuffer(_) => OuterSteps(s) + 5
    case LoadTailBuffer => OuterSteps(s) + 6
  }

  /** The same for the worst place, as a function of the number of buffers. */
  ghost function DequeueSteps(buffers: nat): nat {
    LongestScan(STRIDE * buffers) + 11 * (STRIDE * buffers) + 13
  }

  lemma StepsBound(s: State)
    requires SharedOk(s) && ConsumerOk(s)
    ensures StepsLeft(s) <= DequeueSteps(|s.h.chain|)
  {
    match s.consumer
    case WaitHead(l) => ProbeStepsBound(s, l);
    case Probe(l) => ProbeStepsBound(s, l);
    case ProbeHead(l) => ProbeStepsBound(s, l);
    case Recheck(l) => ProbeStepsBound(s, l);
    case NextBuffer(l) => ProbeStepsBound(s, l);
    case ScanTest(l) => ScanStepsBound(s, l);
    case ScanStep(l) => ScanStepsBound(s, l);
    case _ => OuterStepsBound(s);
  }

  lemma OuterStepsBound(s: State)
    requires SharedOk(s)
    ensures 3 < OuterSteps(s) <= LongestScan(Space(s)) + 11 * Space(s) + 6
  {
    PlaceInside(s, s.headBuf, HeadOf(s));
  }

  lemma ProbeStepsBound(s: State, l: Locals)
    requires SharedOk(s) && ProbeOk(s, l)
    ensures ProbeSteps(s, l) <= LongestScan(Space(s)) + 5 * Space(s)
  {
    PlaceInside(s, l.buf, l.temphead);
  }

  lemma ScanStepsBound(s: State, l: Locals)
    requires SharedOk(s) && ScanOk(s, l)
    ensures ScanSteps(s, l) < LongestScan(Space(s))
  {
    PlaceInside(s, l.tnBuf, l.tnIndex);
    PlaceInside(s, l.scanBuf, l.scanhead);
    ScanBound(Space(s), PlaceAt(s, l.tnBuf, l.tnIndex), ToEnd(s, l.scanBuf, l.scanhead));
  }

  // ----- every step brings the consumer closer to its return -----

  /** A step that moves the consumer on. */
  ghost predicate Closer(s: State, s': State) {
    StepsLeft(s') < StepsLeft(s) && (s'.h.deliveries == s.h.deliveries ||
      (s'.consumer.Ready? && |s'.h.deliveries| == |s.h.deliveries| + 1 && s.h.deliveries <= s'.h.deliveries))
  }

  lemma OuterCloser(s: State, s': State)
    requires SharedOk(s) && ConsumerOk(s) && s' == ConsumerStep(s)
    requires var c := s.consumer; c.LoadTailBuffer? || c.CheckTailBuffer? || c.CheckTail? || c.LeaveBuffer?
    ensures Closer(s, s')
  {
    assert OuterSteps(s') == OuterSteps(s);
  }

  lemma EnterNextCloser(s: State, s': State)
    requires SharedOk(s) && ConsumerOk(s) && s' == ConsumerStep(s) && s.consumer.EnterNext?
    ensures Closer(s, s')
  {
    if s.heap[s.headBuf].next.Some? {
      NextPlace(s, s.headBuf, HeadOf(s), HeadOf(s'));
      assert ToEnd(s', s'.headBuf, HeadOf(s')) == ToEnd(s, s.heap[s.headBuf].next.value, HeadOf(s'));
    }
  }

  lemma LoadHeadCloser(s: State, s': State)
    requires SharedOk(s) && ConsumerOk(s) && s' == ConsumerStep(s) && s.consumer.LoadHead?
    ensures Closer(s, s')
  {
    assert LinkOk(s.heap, s.h.chain, s.heap[s.headBuf].position - 1);
    if HeadOf(s) < NODE_SIZE {
      if HeadFlag(s) == 2 {
        FollowingPlace(s, s.headBuf, HeadOf(s));
        assert ToEnd(s', s'.headBuf, HeadOf(s')) == ToEnd(s, s.headBuf, HeadOf(s) + 1);
      } else {
        PlaceInside(s, s.headBuf, HeadOf(s));
        assert ProbeSteps(s', Start(s)) == ProbeSteps(s, Start(s));
      }
    }
  }

  lemma ProbeCloser(s: State, s': State, l: Locals)
    requires SharedOk(s) && ConsumerOk(s) && s' == ConsumerStep(s) && s.consumer == Probe(l)
    ensures Closer(s, s')
  {
    assert LinkOk(s.heap, s.h.chain, s.heap[l.buf].position - 1);
    if l.temphead < NODE_SIZE {
      FollowingPlace(s, l.buf, l.temphead);
      var l' := s'.consumer.l;
      assert ToEnd(s', l'.buf, l'.temphead) == ToEnd(s, l.buf, l.temphead + 1);
    } else {
      assert ToEnd(s', l.buf, l.temphead) == ToEnd(s, l.buf, l.temphead);
    }
  }

  lemma ProbeHeadCloser(s: State, s': State, l: Locals)
    requires SharedOk(s) && ConsumerOk(s) && s' == ConsumerStep(s) && s.consumer == ProbeHead(l)
    ensures Closer(s, s')
  {
    var l' := s'.consumer.l;
    if HeadFlag(s) == 0 {
      PlaceInside(s, l'.tnBuf, l'.tnIndex);
      PlaceInside(s, l'.scanBuf, l'.scanhead);
      ScanBound(Space(s), PlaceAt(s, l'.tnBuf, l'.tnIndex), ToEnd(s, l'.scanBuf, l'.scanhead));
      assert ScanSteps(s', l') == ScanSteps(s, l');
    } else {
      assert ProbeSteps(s', l') == ProbeSteps(s, l);
    }
  }

  lemma NextBufferCloser(s: State, s': State, l: Locals)
    requires SharedOk(s) && ConsumerOk(s) && s' == ConsumerStep(s) && s.consumer == NextBuffer(l)
    ensures Closer(s, s')
  {
    if l.temphead < NODE_SIZE {
      assert ProbeSteps(s', l) == ProbeSteps(s, l);
    } else if s.heap[l.buf].next.Some? {
      var next := s.heap[l.buf].next.value;
      assert LinkOk(s.heap, s.h.chain, s.heap[l.buf].position - 1);
      assert LinkOk(s.heap, s.h.chain, s.heap[l.buf].position);
      NextPlace(s, l.buf, l.temphead, s.heap[next].head);
      assert ToEnd(s', next, s.heap[next].head) == ToEnd(s, next, s.heap[next].head);
    }
  }

  /** The next place of a scan. */
  lemma ScanOn(s: State, l: Locals, l': Locals)
    requires SharedOk(s) && ScanOk(s, l) && l'.tnBuf == l.tnBuf && l'.tnIndex == l.tnIndex
    requires ToEnd(s, l'.scanBuf, l'.scanhead) < ToEnd(s, l.scanBuf, l.scanhead)
    ensures ScanSteps(s, l') + 1 < ScanSteps(s, l)
  {
  }

  /** A set cell on the way becomes the target. */
  lemma ScanBack(s: State, l: Locals, l': Locals)
    requires SharedOk(s) && ScanOk(s, l) && l.scanhead < NODE_SIZE
    requires l.scanBuf == l.buf ==> l.scanhead + 1 < l.temphead
    requires l'.tnBuf == l.scanBuf && l'.tnIndex == l.scanhead && l'.scanBuf == s.headBuf
    ensures ScanSteps(s, l') + 1 < ScanSteps(s, l)
  {
    PlaceBefore(s, l.tnBuf, l.tnIndex, l.scanBuf, l.scanhead);
    PlaceInside(s, l.tnBuf, l.tnIndex);
    PlaceInside(s, l.scanBuf, l.scanhead);
    PlaceInside(s, l'.scanBuf, l'.scanhead);
    Retargeted(Space(s), PlaceAt(s, l.tnBuf, l.tnIndex), ToEnd(s, l.scanBuf, l.scanhead),
               PlaceAt(s, l'.tnBuf, l'.tnIndex), ToEnd(s, l'.scanBuf, l'.scanhead));
  }

  lemma ScanPasses(s: State, s': State, l: Locals)
    requires SharedOk(s) && ConsumerOk(s) && s' == ConsumerStep(s) && s.consumer == ScanStep(l)
    requires l.scanhead < NODE_SIZE
    ensures s'.consumer.ScanTest? && s' == Go(s, s'.consumer) && ScanSteps(s, s'.consumer.l) + 1 < ScanSteps(s, l)
  {
    assert LinkOk(s.heap, s.h.chain, s.heap[l.scanBuf].position - 1);
    if Cell(s, l.scanBuf, l.scanhead).isSet == 1 {
      ScanBack(s, l, s'.consumer.l);
    } else {
      FollowingPlace(s, l.scanBuf, l.scanhead);
      ScanOn(s, l, s'.consumer.l);
    }
  }

  lemma ScanLeaves(s: State, s': State, l: Locals)
    requires SharedOk(s) && ConsumerOk(s) && s' == ConsumerStep(s) && s.consumer == ScanStep(l)
    requires l.scanhead >= NODE_SIZE
    ensures s'.consumer.ScanTest? && s' == Go(s, s'.consumer) && ScanSteps(s, s'.consumer.l) + 1 < ScanSteps(s, l)
  {
    ScanNext(s, l);
    NextPlace(s, l.scanBuf, l.scanhead, s'.consumer.l.scanhead);
    ScanOn(s, l, s'.consumer.l);
  }

  lemma SameSteps(s: State, c: Consumer, l: Locals)
    ensures ScanSteps(Go(s, c), l) == ScanSteps(s, l) && ProbeSteps(Go(s, c), l) == ProbeSteps(s, l)
  {
  }

  lemma ScanStepCloser(s: State, s': State, l: Locals)
    requires SharedOk(s) && ConsumerOk(s) && s' == ConsumerStep(s) && s.consumer == ScanStep(l)
    ensures Closer(s, s')
  {
    if l.scanhead < NODE_SIZE {
      ScanPasses(s, s', l);
    } else {
      ScanLeaves(s, s', l);
    }
    SameSteps(s, s'.consumer, s'.consumer.l);
  }

  lemma TakingCloser(s: State, s': State)
    requires SharedOk(s) && ConsumerOk(s) && s' == ConsumerStep(s)
    requires s.consumer.TakeHead? || s.consumer.MarkTaken? || s.consumer.TakeData? || s.consumer.ScanDone?
    ensures Closer(s, s')
  {
    if s.consumer.TakeHead? || s.consumer.ScanDone? {
      assert LinkOk(s.heap, s.h.chain, s.heap[s.headBuf].position - 1);
    }
  }

  lemma WaitHeadCloser(s: State, s': State, l: Locals)
    requires SharedOk(s) && ConsumerOk(s) && s' == ConsumerStep(s) && s.consumer == WaitHead(l)
    ensures Closer(s, s')
  {
    assert ToEnd(s', l.buf, l.temphead) == ToEnd(s, l.buf, l.temphead);
  }

  lemma RecheckCloser(s: State, s': State, l: Locals)
    requires SharedOk(s) && ConsumerOk(s) && s' == ConsumerStep(s) && s.consumer == Recheck(l)
    ensures Closer(s, s')
  {
    assert ToEnd(s', l.buf, l.temphead) == ToEnd(s, l.buf, l.temphead);
  }

  lemma ScanTestResult(s: State, l: Locals)
    requires ValidHead(s)
    ensures ScanTestStep(s, l) == Go(s, ScanStep(l)) || ScanTestStep(s, l) == Go(s, ScanDone(l))
  {
  }

  lemma ScanTestCloser(s: State, s': State, l: Locals)
    requires SharedOk(s) && ConsumerOk(s) && s' == ConsumerStep(s) && s.consumer == ScanTest(l)
    ensures Closer(s, s')
  {
    ScanTestResult(s, l);
    AfterScanTest(s, s', l);
  }

  lemma AfterScanTest(s: State, s': State, l: Locals)
    requires s.consumer == ScanTest(l) && (s' == Go(s, ScanStep(l)) || s' == Go(s, ScanDone(l)))
    ensures Closer(s, s')
  {
    SameSteps(s, s'.consumer, l);
  }

  lemma ScanningCloser(s: State, s': State, l: Locals)
    requires SharedOk(s) && ConsumerOk(s) && s' == ConsumerStep(s)
    requires s.consumer == ScanTest(l) || s.consumer == ScanStep(l) || s.consumer == ProbeHead(l)
    ensures Closer(s, s')
  {
    if s.consumer.ScanTest? {
      ScanTestCloser(s, s', l);
    } else if s.consumer.ScanStep? {
      ScanStepCloser(s, s', l);
    } else {
      ProbeHeadCloser(s, s', l);
    }
  }

  lemma ProbingCloser(s: State, s': State, l: Locals)
    requires SharedOk(s) && ConsumerOk(s) && s' == ConsumerStep(s)
    requires var c := s.consumer; c == WaitHead(l) || c == Probe(l) || c == Recheck(l) || c == NextBuffer(l)
    ensures Closer(s, s')
  {
    if s.consumer.WaitHead? {
      WaitHeadCloser(s, s', l);
    } else if s.consumer.Probe? {
      ProbeCloser(s, s', l);
    } else if s.consumer.Recheck? {
      RecheckCloser(s, s', l);
    } else {
      NextBufferCloser(s, s', l);
    }
  }

  lemma ConsumerCloser(s: State, s': State)
    requires SharedOk(s) && ConsumerOk(s) && s' == ConsumerStep(s) && !s.consumer.Ready?
    ensures Closer(s, s')
  {
    var c := s.consumer;
    if c.ScanTest? || c.ScanStep? || c.ProbeHead? {
      ScanningCloser(s, s', c.l);
    } else if c.WaitHead? || c.Probe? || c.Recheck? || c.NextBuffer? {
      ProbingCloser(s, s', c.l);
    } else if c.TakeHead? || c.MarkTaken? || c.TakeData? || c.ScanDone? {
      TakingCloser(s, s');
    } else if c.EnterNext? {
      EnterNextCloser(s, s');
    } else if c.LoadHead? {
      LoadHeadCloser(s, s');
    } else {
      OuterCloser(s, s');
    }
  }

  // ----- running alone -----

  /** The state after `n` steps of the consumer alone. */
  ghost function ConsumerAlone(s: State, n: nat): State
    decreases n
  {
    if n == 0 then s else ConsumerAlone(Step(s, Consume), n - 1)
  }

  /** The consumer, alone, returns for the first time after `n` steps. */
  ghost predicate FirstReturn(s: State, n: nat) {
    n > 0 && ConsumerAlone(s, n).consumer.Ready? && forall m: nat | 0 < m < n :: !ConsumerAlone(s, m).consumer.Ready?
  }

  lemma OneStepReturn(s: State)
    requires Step(s, Consume).consumer.Ready?
    ensures ConsumerAlone(s, 1) == Step(s, Consume) && FirstReturn(s, 1)
  {
    assert ConsumerAlone(s, 1) == ConsumerAlone(Step(s, Consume), 0);
  }

  lemma LaterReturn(s: State, m: nat)
    requires FirstReturn(Step(s, Consume), m) && !Step(s, Consume).consumer.Ready?
    ensures ConsumerAlone(s, m + 1) == ConsumerAlone(Step(s, Consume), m) && FirstReturn(s, m + 1)
  {
    forall j: nat | 0 < j < m + 1
      ensures !ConsumerAlone(s, j).consumer.Ready?
    {
      assert ConsumerAlone(s, j) == ConsumerAlone(Step(s, Consume), j - 1);
    }
  }

  /** At most one more element was delivered. */
  ghost predicate AtMostOne(before: seq<Delivery>, after: seq<Delivery>) {
    before <= after && |after| <= |before| + 1
  }

  lemma {:induction false} ReturnsAlone(s: State) returns (n: nat)
    requires Inv(s) && !s.consumer.Ready?
    ensures FirstReturn(s, n) && n <= StepsLeft(s)
    ensures Inv(ConsumerAlone(s, n)) && AtMostOne(s.h.deliveries, ConsumerAlone(s, n).h.deliveries)
    decreases StepsLeft(s)
  {
    var s' := Step(s, Consume);
    StepInv(s, Consume);
    ConsumerCloser(s, s');
    if s'.consumer.Ready? {
      OneStepReturn(s);
      return 1;
    }
    var m := ReturnsAlone(s');
    LaterReturn(s, m);
    n := m + 1;
  }

  lemma CallReturns(s: State) returns (n: nat)
    requires Inv(s)
    ensures FirstReturn(s, n) && n <= DequeueSteps(|s.h.chain|) + 1
    ensures Inv(ConsumerAlone(s, n)) && AtMostOne(s.h.deliveries, ConsumerAlone(s, n).h.deliveries)
  {
    if s.consumer.Ready? {
      var s' := Step(s, Consume);
      StepInv(s, Consume);
      StepsBound(s');
      var m := ReturnsAlone(s');
      LaterReturn(s, m);
      n := m + 1;
    } else {
      StepsBound(s);
      n := ReturnsAlone(s);
    }
  }

  /**
   In every reachable state, a `dequeue` that is under way, or that is called then, and that runs alone returns
   within a number of steps that depends on the number of buffers only, and delivers at most one element.
   */
  lemma DequeueFinishesAlone(threads: nat, states: seq<State>, actions: seq<Action>, k: nat) returns (n: nat)
    requires IsRun(threads, states, actions) && k < |states|
    ensures FirstReturn(states[k], n) && n <= DequeueSteps(|states[k].h.chain|) + 1
    ensures !ConsumerAlone(states[k], n).fault
    ensures AtMostOne(states[k].h.deliveries, ConsumerAlone(states[k], n).h.deliveries)
  {
    RunInv(threads, states, actions, k);
    n := CallReturns(states[k]);
  }
}
