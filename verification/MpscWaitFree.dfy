/**
 `enqueue` is wait-free: whatever the other threads do, it returns after a number of its own steps that depends only on
 the position of its ticket's buffer and on how many buffers are linked by then.

 The tail can also move back: the thread that linked a buffer stores it into `tail_of_queue_` later, when the tail
 may be further ahead. But every buffer is stored that way at most once, so each buffer before the ticket's own
 pays once for the way that the tail may be thrown back.
 */
module MpscWaitFree {
  import opened Integers
  import opened Wrappers
  import opened MpscQueue
  import opened MpscInvariant
  import opened MpscTheorems
  import opened MpscProgress

  // ----- the work left, in numbers -----

  /**
   Position of the tail, number of linked buffers, and how many buffers before `h` may still be stored into
   the tail.
   */
  datatype View = View(tail: nat, chain: nat, open: nat)

  /** Where an `enqueue` stands; `p` is the position of the buffer it looks at. */
  datatype Place =
    | AtLoadTail
    | AtLocate(p: nat)
    | AtLoadNext(p: nat)
    | AtAlloc(p: nat)
    | AtLink(p: nat)
    | AtStoreTail
    | AtAdvanceTail(p: nat)
    | Ending(n: nat)

  ghost function Gap(h: nat, x: nat): nat {
    if x < h then h - x else 0
  }

  ghost function Stores(h: nat, open: nat): nat {
    open * (4 * h + 4)
  }

  ghost function Links(h: nat, missing: nat): nat {
    missing * (4 * h + 8)
  }

  ghost function Potential(h: nat, v: View): nat {
    Stores(h, v.open) + 4 * Gap(h, v.tail) + Links(h, Gap(h, v.chain))
  }

  /** After the next buffer is linked, wherever the tail is then. */
  ghost function Linked(h: nat, v: View): nat {
    Stores(h, v.open) + 4 * h + Links(h, if v.chain < h then h - v.chain - 1 else 0)
  }

  /** After the tail has left position `p`. */
  ghost function Left(h: nat, v: View, p: nat): nat {
    if v.tail == p && v.tail < h then Potential(h, v) - 4 else Potential(h, v)
  }

  /** From loading the link of a buffer at position `p`, with the other threads at work. */
  ghost function NextPotential(h: nat, v: View, p: nat): nat {
    if p == v.chain then 2 + Linked(h, v) else Left(h, v, p)
  }

  /**
   The steps that an `enqueue` with its cell in buffer number `h` still needs, while at most `c` buffers are
   linked.
   */
  ghost function Work(h: nat, c: nat, v: View, l: Place): nat {
    match l
    case Ending(n) => n
    case AtLoadTail => c + 6 + Potential(h, v)
    case AtLocate(p) => if p >= h then 5 + p - h else c + 9 + NextPotential(h, v, p)
    case AtLoadNext(p) => c + 8 + NextPotential(h, v, p)
    case AtAdvanceTail(p) => c + 7 + Left(h, v, p)
    case AtAlloc(p) => if p == v.chain then c + 9 + Linked(h, v) else c + 8 + Potential(h, v)
    case AtLink(p) => if p == v.chain then c + 8 + Linked(h, v) else c + 7 + Potential(h, v)
    case AtStoreTail => c + 7 + Stores(h, v.open) + 4 * h + Links(h, Gap(h, v.chain))
  }

  ghost predicate PlaceOk(h: nat, v: View, l: Place) {
    match l
    case AtLocate(p) => p <= v.chain
    case AtLoadNext(p) => p <= v.chain && p < h
    case AtAlloc(p) => p <= v.chain && p < h
    case AtLink(p) => p <= v.chain && p < h
    case AtAdvanceTail(p) => p < v.chain && p < h
    case _ => true
  }

  /** What one step of any thread may do: link a buffer, move the tail on, or store a buffer into it. */
  ghost predicate Moved(h: nat, v: View, v': View) {
    && v'.open <= v.open
    && (|| (v'.tail == v.tail && v.chain <= v'.chain <= v.chain + 1)
        || (v'.chain == v.chain && v'.tail == v.tail + 1)
        || (v'.chain == v.chain && v'.tail >= 1 && (v'.tail < h ==> v'.open < v.open)))
  }

  /** A step of another thread only lowers the potential; if it moves the tail to or from `p`, by enough. */
  lemma PotentialKept(h: nat, v: View, v': View, p: nat)
    requires Moved(h, v, v')
    ensures Potential(h, v') <= Potential(h, v) && Left(h, v', p) <= Left(h, v, p)
    ensures v.chain < v'.chain && v.chain < h ==> Potential(h, v') <= Linked(h, v)
  {
    Fewer(v'.open, v.open, 4 * h + 4);
    Fewer(Gap(h, v'.chain), Gap(h, v.chain), 4 * h + 8);
  }

  lemma LinkedKept(h: nat, v: View, v': View)
    requires Moved(h, v, v') && v'.chain == v.chain
    ensures Linked(h, v') <= Linked(h, v)
  {
    Fewer(v'.open, v.open, 4 * h + 4);
  }

  /** Steps of other threads never add to the work. */
  lemma OthersKeep(h: nat, c: nat, v: View, v': View, l: Place)
    requires PlaceOk(h, v, l) && Moved(h, v, v')
    ensures PlaceOk(h, v', l) && Work(h, c, v', l) <= Work(h, c, v, l)
  {
    var p := match l case AtLocate(p) => p case AtLoadNext(p) => p case AtAlloc(p) => p case AtLink(p) => p
                     case AtAdvanceTail(p) => p case _ => 0;
    PotentialKept(h, v, v', p);
    if v'.chain == v.chain {
      LinkedKept(h, v, v');
    }
    if l.AtStoreTail? {
      Fewer(v'.open, v.open, 4 * h + 4);
      Fewer(Gap(h, v'.chain), Gap(h, v.chain), 4 * h + 8);
    }
  }

  // ----- its own steps -----

  lemma LoadTailWorks(h: nat, c: nat, v: View)
    requires 1 <= v.tail <= v.chain <= c
    ensures Work(h, c, v, AtLocate(v.tail)) < Work(h, c, v, AtLoadTail)
  {
    if v.tail < h && v.tail == v.chain {
      assert Links(h, h - v.chain) == Links(h, h - v.chain - 1) + (4 * h + 8) by {
        Fewer(h - v.chain - 1, h - v.chain, 4 * h + 8);
        assert (h - v.chain) * (4 * h + 8) == (h - v.chain - 1) * (4 * h + 8) + (4 * h + 8);
      }
    }
  }

  lemma LinkWorks(h: nat, c: nat, v: View, v': View)
    requires v.chain < h && v'.chain == v.chain + 1 && v'.tail == v.tail && v'.open <= v.open
    ensures Work(h, c, v', AtStoreTail) < Work(h, c, v, AtLink(v.chain))
  {
    Fewer(v'.open, v.open, 4 * h + 4);
  }

  lemma StoreTailWorks(h: nat, c: nat, v: View, v': View)
    requires v'.chain == v.chain && v'.open <= v.open
    ensures Work(h, c, v', AtLoadTail) < Work(h, c, v, AtStoreTail)
  {
    Fewer(v'.open, v.open, 4 * h + 4);
  }

  lemma AdvanceTailWorks(h: nat, c: nat, v: View, v': View, p: nat)
    requires v'.chain == v.chain && v'.open <= v.open && v'.tail == (if v.tail == p then p + 1 else v.tail)
    ensures Work(h, c, v', AtLoadTail) < Work(h, c, v, AtAdvanceTail(p))
  {
    Fewer(v'.open, v.open, 4 * h + 4);
  }

  /** The bound: quadratic in the number of the ticket's buffer, and linear in the number of buffers. */
  ghost function WaitBound(h: nat, c: nat): nat {
    Stores(h, h) + Links(h, h) + 4 * h + c + 11
  }

  lemma StoresBound(h: nat, open: nat)
    requires open <= h
    ensures Stores(h, open) <= Stores(h, h)
  {
    Fewer(open, h, 4 * h + 4);
  }

  lemma LinksBound(h: nat, missing: nat)
    requires missing <= h
    ensures Links(h, missing) <= Links(h, h)
  {
    Fewer(missing, h, 4 * h + 8);
  }

  lemma PotentialBound(h: nat, v: View, most: nat)
    requires v.open <= h && most == Stores(h, h) + Links(h, h) + 4 * h
    ensures Potential(h, v) <= most && Linked(h, v) <= most
    ensures Stores(h, v.open) + 4 * h + Links(h, Gap(h, v.chain)) <= most
  {
    StoresBound(h, v.open);
    LinksBound(h, Gap(h, v.chain));
    LinksBound(h, if v.chain < h then h - v.chain - 1 else 0);
  }

  lemma WorkBound(h: nat, c: nat, v: View, l: Place)
    requires v.open <= h && PlaceOk(h, v, l) && v.chain <= c && (l.Ending? ==> l.n <= 4)
    ensures Work(h, c, v, l) <= WaitBound(h, c)
  {
    PotentialBound(h, v, Stores(h, h) + Links(h, h) + 4 * h);
  }

  // ----- from states to numbers -----

  /** Producer `j` is about to store the buffer at position `b` into the tail. */
  ghost predicate Pending(s: State, j: nat, b: nat) {
    j < |s.producers| && s.producers[j].StoreTail? && Position(s, s.producers[j].newArr) == b
  }

  /** Buffer number `b` may still be stored into the tail. */
  ghost predicate Open(s: State, b: nat) {
    b > |s.h.chain| || exists j: nat :: Pending(s, j, b)
  }

  /** How many of the buffers 2 to `b` are open. */
  ghost function OpenCount(s: State, b: nat): (n: nat)
    ensures n <= b
  {
    if b < 2 then 0 else OpenCount(s, b - 1) + if Open(s, b) then 1 else 0
  }

  ghost function ViewOf(s: State, h: nat): View {
    View(Position(s, s.tailBuf), |s.h.chain|, OpenCount(s, if h > 0 then h - 1 else 0))
  }

  ghost function PlaceOf(s: State, p: Producer): Place {
    match p
    case Idle => Ending(0)
    case LinkAhead(_, _) => Ending(1)
    case AllocAhead(_) => Ending(2)
    case SetFlag(_, _, _) => Ending(3)
    case WriteData(_, _, _) => Ending(4)
    case LoadTail(_) => AtLoadTail
    case Locate(_, buf, _) => AtLocate(Position(s, buf))
    case LoadNext(_, buf) => AtLoadNext(Position(s, buf))
    case Alloc(_, buf) => AtAlloc(Position(s, buf))
    case Link(_, buf, _) => AtLink(Position(s, buf))
    case StoreTail(_, _) => AtStoreTail
    case AdvanceTail(_, buf, _) => AtAdvanceTail(Position(s, buf))
  }

  /**
   The thread that linked a buffer stores it; the tail moves along the links; only tickets further on ask for the next
   buffer.
   */
  ghost predicate TailOk(s: State, i: nat)
    requires i < |s.producers|
  {
    match s.producers[i]
    case StoreTail(_, newArr) =>
      newArr < |s.h.allocator| && s.h.allocator[newArr] == i && Position(s, newArr) >= 2
    case AdvanceTail(op, buf, next) => NextOf(s, buf) == Some(next) && Position(s, buf) < Home(op)
    case LoadNext(op, buf) => Position(s, buf) < Home(op)
    case Alloc(op, buf) => Position(s, buf) < Home(op)
    case Link(op, buf, _) => Position(s, buf) < Home(op)
    case _ => true
  }

  ghost predicate TailsOk(s: State) {
    forall i: nat | i < |s.producers| :: TailOk(s, i)
  }

  // ----- counting open buffers -----

  lemma {:induction false} OpenFewer(s: State, s': State, b: nat)
    requires forall x: nat | 2 <= x <= b && Open(s', x) :: Open(s, x)
    ensures OpenCount(s', b) <= OpenCount(s, b)
  {
    if b >= 2 {
      OpenFewer(s, s', b - 1);
    }
  }

  lemma {:induction false} OpenOneLess(s: State, s': State, b: nat, gone: nat)
    requires forall x: nat | 2 <= x <= b && Open(s', x) :: Open(s, x)
    requires 2 <= gone <= b && Open(s, gone) && !Open(s', gone)
    ensures OpenCount(s', b) < OpenCount(s, b)
  {
    if gone == b {
      OpenFewer(s, s', b - 1);
    } else {
      OpenOneLess(s, s', b - 1, gone);
    }
  }

  // ----- what a step keeps -----

  ghost predicate BufferKept(s: State, s': State, b: nat)
    requires b < |s.heap|
  {
    && b < |s'.heap| && s'.heap[b].position == s.heap[b].position
    && (s.heap[b].next.Some? ==> s'.heap[b].next == s.heap[b].next)
  }

  ghost predicate Grows(s: State, s': State) {
    && s.h.allocator <= s'.h.allocator && |s.h.chain| <= |s'.h.chain| && |s'.producers| == |s.producers|
    && forall b: nat | b < |s.heap| :: BufferKept(s, s', b)
  }

  lemma HistoryGrows(s: State, j: nat, value: int)
    requires j < |s.producers|
    ensures var s' := ProducerStep(s, j, value);
      s.h.allocator <= s'.h.allocator && |s.h.chain| <= |s'.h.chain| && |s'.producers| == |s.producers|
  {
  }

  lemma ProducerGrows(s: State, j: nat, value: int)
    requires j < |s.producers|
    ensures Grows(s, ProducerStep(s, j, value))
  {
    var s' := ProducerStep(s, j, value);
    HistoryGrows(s, j, value);
    forall b: nat | b < |s.heap| ensures BufferKept(s, s', b) {
      ProducerBuffer(s, j, value, b);
    }
  }

  /** The consumer changes neither links nor the tail nor the producers. */
  lemma ConsumerGrows(s: State)
    ensures Grows(s, ConsumerStep(s))
    ensures ConsumerStep(s).producers == s.producers && ConsumerStep(s).tailBuf == s.tailBuf
    ensures ConsumerStep(s).h.chain == s.h.chain
  {
    var s' := ConsumerStep(s);
    ConsumerFrame(s);
    forall b: nat | b < |s.heap| ensures BufferKept(s, s', b) {
      ConsumerBuffer(s, b);
    }
  }

  /** The buffers that producers are about to store are linked. */
  ghost predicate StoresLinked(s: State) {
    forall k: nat | k < |s.producers| && s.producers[k].StoreTail? :: InChain(s.heap, s.h.chain, s.producers[k].newArr)
  }

  lemma InvStoresLinked(s: State)
    requires ProducersOk(s)
    ensures StoresLinked(s)
  {
    forall k: nat | k < |s.producers| && s.producers[k].StoreTail?
      ensures InChain(s.heap, s.h.chain, s.producers[k].newArr)
    {
      assert ProducerOk(s, k);
    }
  }

  /** Only the buffer that a step links can become open, and it was not linked before. */
  lemma OpenKept(s: State, s': State, j: nat, x: nat)
    requires Grows(s, s') && StoresLinked(s) && Open(s', x)
    requires OthersStay(s, s', j)
    requires j < |s.producers| && s'.producers[j].StoreTail? ==> Position(s', s'.producers[j].newArr) > |s.h.chain|
    ensures Open(s, x)
  {
    if x <= |s.h.chain| {
      var k: nat :| Pending(s', k, x);
      assert BufferKept(s, s', s.producers[k].newArr);
      assert Pending(s, k, x);
    }
  }

  lemma CountKept(s: State, s': State, j: nat, b: nat)
    requires Grows(s, s') && StoresLinked(s)
    requires OthersStay(s, s', j)
    requires j < |s.producers| && s'.producers[j].StoreTail? ==> Position(s', s'.producers[j].newArr) > |s.h.chain|
    ensures OpenCount(s', b) <= OpenCount(s, b)
  {
    forall x: nat | 2 <= x <= b && Open(s', x) ensures Open(s, x) {
      OpenKept(s, s', j, x);
    }
    OpenFewer(s, s', b);
  }

  /** Once its thread has stored it, a buffer is closed: nobody else will store it. */
  lemma ClosedNow(s: State, s': State, j: nat, b: nat)
    requires Grows(s, s') && StoresLinked(s) && TailsOk(s) && Pending(s, j, b) && b <= |s.h.chain|
    requires OthersStay(s, s', j)
    requires !s'.producers[j].StoreTail?
    ensures !Open(s', b)
  {
    forall k: nat ensures !Pending(s', k, b) {
      if k != j && Pending(s', k, b) {
        assert BufferKept(s, s', s.producers[k].newArr);
        OneStorer(s, k, j, b);
      }
    }
  }

  lemma OneStorer(s: State, j: nat, k: nat, b: nat)
    requires StoresLinked(s) && TailsOk(s) && Pending(s, j, b) && Pending(s, k, b)
    ensures j == k
  {
    assert TailOk(s, j) && TailOk(s, k);
  }

  // ----- every step moves the view -----

  /** Pcs whose step neither links a buffer nor writes the tail. */
  ghost predicate Calm(p: Producer) {
    !p.LinkAhead? && !p.Link? && !p.StoreTail? && !p.AdvanceTail?
  }

  ghost predicate OthersStay(s: State, s': State, j: nat) {
    |s'.producers| == |s.producers| && forall k: nat | k < |s.producers| && k != j :: s'.producers[k] == s.producers[k]
  }

  lemma ProducerAlone(s: State, j: nat, value: int)
    requires j < |s.producers|
    ensures OthersStay(s, ProducerStep(s, j, value), j)
  {
  }

  lemma CalmStep(s: State, j: nat, value: int)
    requires j < |s.producers| && Calm(s.producers[j])
    ensures var s' := ProducerStep(s, j, value);
      && s'.tailBuf == s.tailBuf && s'.h.chain == s.h.chain
      && j < |s'.producers| && !s'.producers[j].StoreTail?
  {
  }

  lemma TailLinked(s: State)
    requires SharedOk(s)
    ensures s.tailBuf < |s.heap| && 1 <= Position(s, s.tailBuf) <= |s.h.chain|
  {
  }

  lemma CalmMoves(s: State, j: nat, value: int, h: nat)
    requires SharedOk(s) && ProducersOk(s) && j < |s.producers| && Calm(s.producers[j])
    ensures Moved(h, ViewOf(s, h), ViewOf(ProducerStep(s, j, value), h))
  {
    var s' := ProducerStep(s, j, value);
    TailLinked(s);
    InvStoresLinked(s);
    ProducerGrows(s, j, value);
    ProducerAlone(s, j, value);
    CalmStep(s, j, value);
    assert BufferKept(s, s', s.tailBuf);
    CountKept(s, s', j, if h > 0 then h - 1 else 0);
  }

  /** Linking makes the new buffer the last one of the chain. */
  lemma LinkEffect(s: State, j: nat, value: int)
    requires SharedOk(s) && j < |s.producers| && LocalOk(s, j, s.producers[j])
    requires s.producers[j].LinkAhead? || s.producers[j].Link?
    ensures var s' := ProducerStep(s, j, value);
      && s'.tailBuf == s.tailBuf && |s.h.chain| <= |s'.h.chain| <= |s.h.chain| + 1 && j < |s'.producers|
      && (s'.producers[j].StoreTail? ==> Position(s', s'.producers[j].newArr) == |s.h.chain| + 1)
  {
    var buf := s.producers[j].buf;
    assert LinkOk(s.heap, s.h.chain, s.heap[buf].position - 1);
  }

  lemma LinkMoves(s: State, j: nat, value: int, h: nat)
    requires SharedOk(s) && ProducersOk(s) && j < |s.producers| && (s.producers[j].LinkAhead? || s.producers[j].Link?)
    ensures Moved(h, ViewOf(s, h), ViewOf(ProducerStep(s, j, value), h))
  {
    var s' := ProducerStep(s, j, value);
    assert ProducerOk(s, j);
    TailLinked(s);
    InvStoresLinked(s);
    ProducerGrows(s, j, value);
    ProducerAlone(s, j, value);
    LinkEffect(s, j, value);
    assert BufferKept(s, s', s.tailBuf);
    CountKept(s, s', j, if h > 0 then h - 1 else 0);
  }

  lemma StoreMoves(s: State, j: nat, value: int, h: nat)
    requires SharedOk(s) && ProducersOk(s) && TailsOk(s) && j < |s.producers| && s.producers[j].StoreTail?
    ensures Moved(h, ViewOf(s, h), ViewOf(ProducerStep(s, j, value), h))
  {
    var s' := ProducerStep(s, j, value);
    var newArr := s.producers[j].newArr;
    var b := Position(s, newArr);
    assert ProducerOk(s, j) && TailOk(s, j);
    InvStoresLinked(s);
    ProducerGrows(s, j, value);
    ProducerAlone(s, j, value);
    assert BufferKept(s, s', newArr);
    CountKept(s, s', j, if h > 0 then h - 1 else 0);
    if b < h {
      assert Pending(s, j, b);
      ClosedNow(s, s', j, b);
      forall x: nat | 2 <= x <= h - 1 && Open(s', x) ensures Open(s, x) {
        OpenKept(s, s', j, x);
      }
      OpenOneLess(s, s', h - 1, b);
    }
  }

  lemma AdvanceMoves(s: State, j: nat, value: int, h: nat)
    requires SharedOk(s) && ProducersOk(s) && TailsOk(s) && j < |s.producers| && s.producers[j].AdvanceTail?
    ensures Moved(h, ViewOf(s, h), ViewOf(ProducerStep(s, j, value), h))
    ensures ViewOf(ProducerStep(s, j, value), h).tail ==
      (if s.tailBuf == s.producers[j].buf then Position(s, s.producers[j].buf) + 1 else Position(s, s.tailBuf))
  {
    var s' := ProducerStep(s, j, value);
    var buf, next := s.producers[j].buf, s.producers[j].next;
    assert ProducerOk(s, j) && TailOk(s, j);
    NextPosition(s, buf);
    TailLinked(s);
    InvStoresLinked(s);
    ProducerGrows(s, j, value);
    ProducerAlone(s, j, value);
    assert BufferKept(s, s', s.tailBuf) && BufferKept(s, s', next);
    CountKept(s, s', j, if h > 0 then h - 1 else 0);
  }

  lemma ConsumerMoves(s: State, h: nat)
    requires SharedOk(s) && ProducersOk(s)
    ensures Moved(h, ViewOf(s, h), ViewOf(ConsumerStep(s), h))
  {
    var s' := ConsumerStep(s);
    TailLinked(s);
    InvStoresLinked(s);
    ConsumerGrows(s);
    assert BufferKept(s, s', s.tailBuf);
    CountKept(s, s', |s.producers|, if h > 0 then h - 1 else 0);
  }

  /** No step of any thread adds to the work of another one's `enqueue`. */
  lemma StepMoves(s: State, a: Action, h: nat)
    requires Inv(s) && TailsOk(s)
    ensures Moved(h, ViewOf(s, h), ViewOf(Step(s, a), h))
  {
    match a
    case Produce(j, v) =>
      if j < |s.producers| {
        var p := s.producers[j];
        if p.LinkAhead? || p.Link? {
          LinkMoves(s, j, v, h);
        } else if p.StoreTail? {
          StoreMoves(s, j, v, h);
        } else if p.AdvanceTail? {
          AdvanceMoves(s, j, v, h);
        } else {
          CalmMoves(s, j, v, h);
        }
      }
    case Consume => ConsumerMoves(s, h);
  }

  // ----- what is known about pending tail writes stays true -----

  lemma TailStays(s: State, s': State, k: nat)
    requires Grows(s, s') && k < |s.producers| && s'.producers[k] == s.producers[k]
    requires LocalOk(s, k, s.producers[k]) && TailOk(s, k)
    ensures TailOk(s', k)
  {
    match s.producers[k]
    case StoreTail(_, newArr) => assert BufferKept(s, s', newArr);
    case AdvanceTail(_, buf, _) => assert BufferKept(s, s', buf);
    case LoadNext(_, buf) => assert BufferKept(s, s', buf);
    case Alloc(_, buf) => assert BufferKept(s, s', buf);
    case Link(_, buf, _) => assert BufferKept(s, s', buf);
    case _ =>
  }

  lemma TailFollows(s: State, j: nat, value: int)
    requires SharedOk(s) && j < |s.producers| && LocalOk(s, j, s.producers[j]) && TailOk(s, j)
    requires j < |ProducerStep(s, j, value).producers|
    ensures TailOk(ProducerStep(s, j, value), j)
  {
    match s.producers[j]
    case Locate(op, buf, _) =>
      NextPosition(s, buf);
      HomeOf(op.location, s.heap[buf].position);
    case Link(_, buf, _) => NextPosition(s, buf);
    case Alloc(_, buf) =>
    case LoadNext(_, buf) =>
    case _ =>
  }

  lemma ProducerTails(s: State, j: nat, value: int, k: nat)
    requires SharedOk(s) && ProducersOk(s) && TailsOk(s) && j < |s.producers| && k < |s.producers|
    requires k < |ProducerStep(s, j, value).producers|
    ensures TailOk(ProducerStep(s, j, value), k)
  {
    assert ProducerOk(s, k) && TailOk(s, k);
    if k == j {
      TailFollows(s, j, value);
    } else {
      ProducerGrows(s, j, value);
      ProducerAlone(s, j, value);
      TailStays(s, ProducerStep(s, j, value), k);
    }
  }

  lemma ConsumerTails(s: State, k: nat)
    requires ProducersOk(s) && TailsOk(s) && k < |s.producers| && k < |ConsumerStep(s).producers|
    ensures TailOk(ConsumerStep(s), k)
  {
    assert ProducerOk(s, k) && TailOk(s, k);
    ConsumerGrows(s);
    TailStays(s, ConsumerStep(s), k);
  }

  lemma TailsKept(s: State, a: Action, s': State)
    requires SharedOk(s) && ProducersOk(s) && TailsOk(s) && s' == Step(s, a) && |s'.producers| == |s.producers|
    ensures TailsOk(s')
  {
    forall k: nat | k < |s'.producers| ensures TailOk(s', k) {
      match a
      case Produce(j, v) => if j < |s.producers| { ProducerTails(s, j, v, k); } else { assert TailOk(s, k); }
      case Consume => ConsumerTails(s, k);
    }
  }

  // ----- the steps of one `enqueue` -----

  ghost predicate HomeIs(p: Producer, h: nat) {
    match p
    case Idle | AllocAhead(_) | LinkAhead(_, _) => true
    case _ => Home(p.op) == h
  }

  ghost function WorkOf(s: State, i: nat, h: nat, c: nat): nat
    requires i < |s.producers|
  {
    Work(h, c, ViewOf(s, h), PlaceOf(s, s.producers[i]))
  }

  /** A step that does not write the tail or a link goes from place to place. */
  ghost predicate Walks(h: nat, v: View, l: Place, l': Place) {
    match l
    case AtLoadTail => l' == AtLocate(v.tail)
    case AtLocate(p) =>
      if p > h then l' == AtLocate(p - 1) else if p == h then l' == Ending(4) else l' == AtLoadNext(p)
    case AtLoadNext(p) => l' == if p == v.chain then AtAlloc(p) else AtAdvanceTail(p)
    case AtAlloc(p) => l' == AtLink(p)
    case Ending(n) => l'.Ending? && l'.n < n
    case _ => false
  }

  lemma WalkWorks(h: nat, c: nat, v: View, v': View, l: Place, l': Place)
    requires 1 <= v.tail <= v.chain <= c && PlaceOk(h, v, l) && Walks(h, v, l, l')
    requires v'.tail == v.tail && v'.chain == v.chain && v'.open <= v.open
    ensures Work(h, c, v', l') < Work(h, c, v, l)
  {
    if l.AtLoadTail? {
      LoadTailWorks(h, c, v);
    }
    assert PlaceOk(h, v, l');
    OthersKeep(h, c, v, v', l');
  }

  lemma CalmWalks(s: State, i: nat, h: nat)
    requires SharedOk(s) && i < |s.producers| && LocalOk(s, i, s.producers[i]) && TailOk(s, i)
    requires Calm(s.producers[i]) && !s.producers[i].Idle? && HomeIs(s.producers[i], h)
    ensures var s' := ProducerStep(s, i, 0);
      && i < |s'.producers| && HomeIs(s'.producers[i], h)
      && Walks(h, ViewOf(s, h), PlaceOf(s, s.producers[i]), PlaceOf(s', s'.producers[i]))
  {
    match s.producers[i]
    case LoadTail(op) => TailLinked(s);
    case Locate(op, buf, _) => LocateWalks(s, i, h, op, buf);
    case LoadNext(op, buf) => LoadNextWalks(s, i, h, op, buf);
    case WriteData(_, buf, _) => assert LinkOk(s.heap, s.h.chain, s.heap[buf].position - 1);
    case SetFlag(_, buf, _) => assert LinkOk(s.heap, s.h.chain, s.heap[buf].position - 1);
    case _ =>
  }

  lemma LocateWalks(s: State, i: nat, h: nat, op: Enqueue, buf: nat)
    requires SharedOk(s) && i < |s.producers| && LocalOk(s, i, s.producers[i])
    requires s.producers[i].Locate? && s.producers[i].op == op && s.producers[i].buf == buf && Home(op) == h
    ensures var s' := ProducerStep(s, i, 0);
      && i < |s'.producers| && HomeIs(s'.producers[i], h)
      && Walks(h, ViewOf(s, h), PlaceOf(s, s.producers[i]), PlaceOf(s', s'.producers[i]))
  {
    NextPosition(s, buf);
    HomeOf(op.location, s.heap[buf].position);
  }

  lemma LoadNextWalks(s: State, i: nat, h: nat, op: Enqueue, buf: nat)
    requires SharedOk(s) && i < |s.producers| && LocalOk(s, i, s.producers[i])
    requires s.producers[i] == LoadNext(op, buf) && Home(op) == h
    ensures var s' := ProducerStep(s, i, 0);
      && i < |s'.producers| && HomeIs(s'.producers[i], h)
      && Walks(h, ViewOf(s, h), PlaceOf(s, s.producers[i]), PlaceOf(s', s'.producers[i]))
  {
    assert LinkOk(s.heap, s.h.chain, s.heap[buf].position - 1);
  }

  ghost predicate PlaceFits(s: State, i: nat, h: nat)
    requires i < |s.producers|
  {
    PlaceOk(h, ViewOf(s, h), PlaceOf(s, s.producers[i]))
  }

  lemma InvPlaceFits(s: State, i: nat, h: nat)
    requires SharedOk(s) && i < |s.producers| && LocalOk(s, i, s.producers[i])
    requires TailOk(s, i) && HomeIs(s.producers[i], h)
    ensures PlaceFits(s, i, h)
  {
    match s.producers[i]
    case AdvanceTail(_, buf, _) => assert LinkOk(s.heap, s.h.chain, s.heap[buf].position - 1);
    case _ =>
  }

  lemma CalmWorks(s: State, i: nat, h: nat, c: nat)
    requires SharedOk(s) && ProducersOk(s) && TailsOk(s) && i < |s.producers| && |s.h.chain| <= c
    requires Calm(s.producers[i]) && !s.producers[i].Idle? && HomeIs(s.producers[i], h)
    ensures var s' := ProducerStep(s, i, 0);
      i < |s'.producers| && HomeIs(s'.producers[i], h) && WorkOf(s', i, h, c) < WorkOf(s, i, h, c)
  {
    var s' := ProducerStep(s, i, 0);
    assert ProducerOk(s, i) && TailOk(s, i);
    TailLinked(s);
    InvPlaceFits(s, i, h);
    CalmWalks(s, i, h);
    CalmMoves(s, i, 0, h);
    CalmView(s, i, h);
    WalkWorks(h, c, ViewOf(s, h), ViewOf(s', h), PlaceOf(s, s.producers[i]), PlaceOf(s', s'.producers[i]));
  }

  lemma CalmView(s: State, i: nat, h: nat)
    requires SharedOk(s) && i < |s.producers| && Calm(s.producers[i])
    ensures var v, v' := ViewOf(s, h), ViewOf(ProducerStep(s, i, 0), h); v'.tail == v.tail && v'.chain == v.chain
  {
    TailLinked(s);
    CalmStep(s, i, 0);
    ProducerGrows(s, i, 0);
    assert BufferKept(s, ProducerStep(s, i, 0), s.tailBuf);
  }

  lemma LinkAheadEnds(s: State, i: nat, h: nat, c: nat)
    requires SharedOk(s) && i < |s.producers| && LocalOk(s, i, s.producers[i]) && s.producers[i].LinkAhead?
    ensures var s' := ProducerStep(s, i, 0);
      i < |s'.producers| && HomeIs(s'.producers[i], h) && WorkOf(s', i, h, c) < WorkOf(s, i, h, c)
  {
  }

  /** The two outcomes of the compare-and-swap on `next_`. */
  lemma LinkOutcome(s: State, i: nat, h: nat)
    requires SharedOk(s) && i < |s.producers| && LocalOk(s, i, s.producers[i]) && s.producers[i].Link?
    ensures var s' := ProducerStep(s, i, 0);
      var p := Position(s, s.producers[i].buf);
      && i < |s'.producers| && (Home(s.producers[i].op) == h ==> HomeIs(s'.producers[i], h))
      && (if p == |s.h.chain|
          then |s'.h.chain| == |s.h.chain| + 1 && s'.producers[i].StoreTail?
          else s'.h.chain == s.h.chain && s'.producers[i].LoadTail?)
  {
    assert LinkOk(s.heap, s.h.chain, s.heap[s.producers[i].buf].position - 1);
  }

  lemma LinkStepWorks(s: State, i: nat, h: nat, c: nat)
    requires SharedOk(s) && ProducersOk(s) && TailsOk(s) && i < |s.producers|
    requires s.producers[i].Link? && Home(s.producers[i].op) == h
    ensures var s' := ProducerStep(s, i, 0);
      i < |s'.producers| && HomeIs(s'.producers[i], h) && WorkOf(s', i, h, c) < WorkOf(s, i, h, c)
  {
    var s' := ProducerStep(s, i, 0);
    var v, v' := ViewOf(s, h), ViewOf(s', h);
    assert ProducerOk(s, i) && TailOk(s, i);
    LinkOutcome(s, i, h);
    LinkMoves(s, i, 0, h);
    LinkEffect(s, i, 0);
    TailLinked(s);
    ProducerGrows(s, i, 0);
    assert BufferKept(s, s', s.tailBuf);
    if v'.chain == v.chain + 1 {
      LinkWorks(h, c, v, v');
    } else {
      PotentialKept(h, v, v', 0);
    }
  }

  lemma StoreStepWorks(s: State, i: nat, h: nat, c: nat)
    requires SharedOk(s) && ProducersOk(s) && TailsOk(s) && i < |s.producers|
    requires s.producers[i].StoreTail? && Home(s.producers[i].op) == h
    ensures var s' := ProducerStep(s, i, 0);
      i < |s'.producers| && HomeIs(s'.producers[i], h) && WorkOf(s', i, h, c) < WorkOf(s, i, h, c)
  {
    StoreMoves(s, i, 0, h);
    StoreTailWorks(h, c, ViewOf(s, h), ViewOf(ProducerStep(s, i, 0), h));
  }

  lemma AdvanceStepWorks(s: State, i: nat, h: nat, c: nat)
    requires SharedOk(s) && ProducersOk(s) && TailsOk(s) && i < |s.producers|
    requires s.producers[i].AdvanceTail? && Home(s.producers[i].op) == h
    ensures var s' := ProducerStep(s, i, 0);
      i < |s'.producers| && HomeIs(s'.producers[i], h) && WorkOf(s', i, h, c) < WorkOf(s, i, h, c)
  {
    assert ProducerOk(s, i);
    AdvanceMoves(s, i, 0, h);
    AdvanceTailWorks(h, c, ViewOf(s, h), ViewOf(ProducerStep(s, i, 0), h), Position(s, s.producers[i].buf));
  }

  /** Every own step of an unfinished `enqueue` lowers its work. */
  lemma OwnStepWorks(s: State, i: nat, h: nat, c: nat)
    requires SharedOk(s) && ProducersOk(s) && TailsOk(s) && i < |s.producers| && |s.h.chain| <= c
    requires !s.producers[i].Idle? && HomeIs(s.producers[i], h)
    ensures var s' := ProducerStep(s, i, 0);
      i < |s'.producers| && HomeIs(s'.producers[i], h) && WorkOf(s', i, h, c) < WorkOf(s, i, h, c)
  {
    assert ProducerOk(s, i);
    match s.producers[i]
    case LinkAhead(_, _) => LinkAheadEnds(s, i, h, c);
    case Link(_, _, _) => LinkStepWorks(s, i, h, c);
    case StoreTail(_, _) => StoreStepWorks(s, i, h, c);
    case AdvanceTail(_, _, _) => AdvanceStepWorks(s, i, h, c);
    case _ => CalmWorks(s, i, h, c);
  }

  // ----- every run -----

  /** A step of the run: own steps lower the work, others do not raise it. */
  lemma RunStepWorks(s: State, a: Action, s': State, i: nat, h: nat, c: nat)
    requires Inv(s) && TailsOk(s) && s' == Step(s, a) && i < |s.producers| && |s.h.chain| <= c
    requires !s.producers[i].Idle? && HomeIs(s.producers[i], h)
    ensures |s'.producers| == |s.producers| && TailsOk(s') && HomeIs(s'.producers[i], h)
    ensures WorkOf(s', i, h, c) + (if a.Produce? && a.thread == i then 1 else 0) <= WorkOf(s, i, h, c)
  {
    assert ProducerOk(s, i) && TailOk(s, i);
    StepThreads(s, a);
    TailsKept(s, a, s');
    if a.Produce? && a.thread == i {
      OwnStepWorks(s, i, h, c);
      ValueUnused(s, i, a.value);
    } else {
      OtherStep(s, a, i);
      InvPlaceFits(s, i, h);
      StepMoves(s, a, h);
      OthersKeep(h, c, ViewOf(s, h), ViewOf(s', h), PlaceOf(s, s.producers[i]));
    }
  }

  lemma ValueUnused(s: State, i: nat, value: int)
    requires i < |s.producers| && !s.producers[i].Idle?
    ensures ProducerStep(s, i, value) == ProducerStep(s, i, 0)
  {
  }

  lemma StepThreads(s: State, a: Action)
    ensures |Step(s, a).producers| == |s.producers|
  {
    match a
    case Produce(j, v) => if j < |s.producers| { ProducerAlone(s, j, v); }
    case Consume => ConsumerFrame(s);
  }

  lemma OtherStep(s: State, a: Action, i: nat)
    requires i < |s.producers| && !(a.Produce? && a.thread == i) && LocalOk(s, i, s.producers[i])
    ensures |Step(s, a).producers| == |s.producers| && Step(s, a).producers[i] == s.producers[i]
    ensures PlaceOf(Step(s, a), s.producers[i]) == PlaceOf(s, s.producers[i])
  {
    var s' := Step(s, a);
    match a {
      case Produce(j, v) =>
        if j < |s.producers| {
          ProducerAlone(s, j, v);
          ProducerGrows(s, j, v);
        }
      case Consume => ConsumerGrows(s);
    }
    if s'.heap != s.heap {
      var p := s.producers[i];
      if p.Locate? || p.LoadNext? || p.Alloc? || p.Link? || p.AdvanceTail? {
        assert BufferKept(s, s', p.buf);
      }
    }
  }

  lemma {:induction false} RunTails(threads: nat, states: seq<State>, actions: seq<Action>, k: nat)
    requires IsRun(threads, states, actions) && k < |states|
    ensures TailsOk(states[k]) && |states[k].producers| == threads
  {
    if k == 0 {
      StartTails(threads);
    } else {
      RunTails(threads, states, actions, k - 1);
      RunInv(threads, states, actions, k - 1);
      assert StepAt(states, actions, k - 1);
      NextTails(states[k - 1], actions[k - 1], states[k]);
    }
  }

  lemma StartTails(threads: nat)
    ensures TailsOk(Init(threads)) && |Init(threads).producers| == threads
  {
  }

  lemma NextTails(s: State, a: Action, s': State)
    requires Inv(s) && TailsOk(s) && s' == Step(s, a)
    ensures TailsOk(s') && |s'.producers| == |s.producers|
  {
    StepThreads(s, a);
    TailsKept(s, a, s');
  }

  lemma {:induction false} RunChain(threads: nat, states: seq<State>, actions: seq<Action>, k: nat, j: nat)
    requires IsRun(threads, states, actions) && k <= j < |states|
    ensures |states[k].h.chain| <= |states[j].h.chain|
    decreases j
  {
    if k < j {
      RunChain(threads, states, actions, k, j - 1);
      RunNextChain(threads, states, actions, j - 1);
    }
  }

  lemma RunNextChain(threads: nat, states: seq<State>, actions: seq<Action>, k: nat)
    requires IsRun(threads, states, actions) && k < |actions|
    ensures |states[k].h.chain| <= |states[k + 1].h.chain|
  {
    assert StepAt(states, actions, k);
    NextChain(states[k], actions[k], states[k + 1]);
  }

  lemma NextChain(s: State, a: Action, s': State)
    requires s' == Step(s, a)
    ensures |s.h.chain| <= |s'.h.chain|
  {
    match a
    case Produce(j, v) => if j < |s.producers| { ProducerGrows(s, j, v); }
    case Consume => ConsumerFrame(s);
  }

  /** How many of the actions `k` to `j` are steps of thread `i`. */
  ghost function OwnSteps(actions: seq<Action>, i: nat, k: nat, j: nat): nat
    requires k <= j <= |actions|
    decreases j
  {
    if k == j then 0
    else OwnSteps(actions, i, k, j - 1) + if actions[j - 1].Produce? && actions[j - 1].thread == i then 1 else 0
  }

  /** Thread `i` is inside `enqueue`. */
  ghost predicate Enqueuing(s: State, i: nat) {
    i < |s.producers| && !s.producers[i].Idle?
  }

  lemma {:induction false} WorkLeft(threads: nat, states: seq<State>, actions: seq<Action>, k: nat, j: nat,
                                    i: nat, h: nat, c: nat)
    requires IsRun(threads, states, actions) && k <= j < |states| && i < threads
    requires Enqueuing(states[k], i) && HomeIs(states[k].producers[i], h) && |states[j].h.chain| <= c
    requires forall m | k <= m < j :: Enqueuing(states[m], i)
    ensures i < |states[k].producers| && i < |states[j].producers| && HomeIs(states[j].producers[i], h)
    ensures OwnSteps(actions, i, k, j) + WorkOf(states[j], i, h, c) <= WorkOf(states[k], i, h, c)
    decreases j
  {
    if k < j {
      RunChain(threads, states, actions, j - 1, j);
      WorkLeft(threads, states, actions, k, j - 1, i, h, c);
      RunInv(threads, states, actions, j - 1);
      RunTails(threads, states, actions, j - 1);
      assert StepAt(states, actions, j - 1);
      RunStepWorks(states[j - 1], actions[j - 1], states[j], i, h, c);
    }
  }

  lemma WorkAtMost(s: State, i: nat, h: nat, c: nat)
    requires Inv(s) && TailsOk(s) && i < |s.producers| && HomeIs(s.producers[i], h) && |s.h.chain| <= c
    ensures WorkOf(s, i, h, c) <= WaitBound(h, c)
  {
    assert ProducerOk(s, i) && TailOk(s, i);
    InvPlaceFits(s, i, h);
    WorkBound(h, c, ViewOf(s, h), PlaceOf(s, s.producers[i]));
  }

  /**
   In every run, whatever the schedule: an `enqueue` with ticket `L` that is not finished yet has made, since any state
   in which it held its ticket, at most `WaitBound` steps of its own.
   */
  lemma EnqueueWaitFree(threads: nat, states: seq<State>, actions: seq<Action>, k: nat, j: nat, i: nat, L: nat)
    requires IsRun(threads, states, actions) && k <= j < |states|
    requires i < |states[k].producers| && Holds(states[k].producers[i], L)
    requires forall m | k <= m < j :: Enqueuing(states[m], i)
    ensures OwnSteps(actions, i, k, j) <= WaitBound(L / NODE_SIZE + 1, |states[j].h.chain|)
  {
    var h, c := L / NODE_SIZE + 1, |states[j].h.chain|;
    RunTails(threads, states, actions, k);
    RunInv(threads, states, actions, k);
    RunChain(threads, states, actions, k, j);
    WorkLeft(threads, states, actions, k, j, i, h, c);
    WorkAtMost(states[k], i, h, c);
  }
}
