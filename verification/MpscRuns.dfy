/** Reachable states, followed step by step, and the first steps of the runs that the concrete cases share. */
module MpscRuns {
  import opened Wrappers
  import opened MpscQueue

  // ----- reachable states -----

  ghost predicate Keeps(p: State -> bool, s: State, a: Action) {
    p(s) ==> p(Step(s, a))
  }

  /** No step leads out of the states that `p` describes; what `p` holds of is then followed step by step. */
  ghost predicate Closed(p: State -> bool) {
    forall s: State, a: Action :: Keeps(p, s, a)
  }

  lemma OnStep(p: State -> bool, s: State, a: Action, s': State)
    requires Closed(p) && p(s) && Step(s, a) == s'
    ensures p(s')
  {
    assert Keeps(p, s, a);
  }

  /** Some run of the queue ends in this state. */
  ghost predicate Reachable(threads: nat, s: State) {
    exists states, actions :: IsRun(threads, states, actions) && states[|actions|] == s
  }

  lemma OneMoreStep(threads: nat, states: seq<State>, actions: seq<Action>, a: Action)
    requires IsRun(threads, states, actions)
    ensures IsRun(threads, states + [Step(states[|actions|], a)], actions + [a])
  {
    var states', actions' := states + [Step(states[|actions|], a)], actions + [a];
    forall k: nat | k < |actions'|
      ensures StepAt(states', actions', k)
    {
      if k < |actions| {
        assert StepAt(states, actions, k);
      }
    }
  }

  lemma ReachableClosed(threads: nat)
    ensures Closed(s => Reachable(threads, s)) && Reachable(threads, Init(threads))
  {
    var p := (s: State) => Reachable(threads, s);
    forall s: State, a: Action
      ensures Keeps(p, s, a)
    {
      if Reachable(threads, s) {
        var states, actions :| IsRun(threads, states, actions) && states[|actions|] == s;
        OneMoreStep(threads, states, actions, a);
        assert (states + [Step(s, a)])[|actions + [a]|] == Step(s, a);
      }
    }
    assert Closed(p);
    assert IsRun(threads, [Init(threads)], []);
  }

  // ----- the producers -----

  /** The first `k` threads have taken their tickets and done nothing else. */
  ghost function Ticketed(threads: nat, k: nat): State {
    Init(threads).(
      tail := k,
      producers := seq(threads, i requires 0 <= i < threads => if i < k then LoadTail(Enqueue(i, 0, false)) else Idle),
      h := Init(threads).h.(issued := seq(k, _ => 0), owner := seq(k, i requires 0 <= i < k => i)))
  }

  lemma TicketTaken(threads: nat, k: nat)
    requires k < threads
    ensures Step(Ticketed(threads, k), Produce(k, 0)) == Ticketed(threads, k + 1)
  {
    var s, s' := Ticketed(threads, k), Ticketed(threads, k + 1);
    assert s.producers[k := LoadTail(Enqueue(k, 0, false))] == s'.producers;
    assert s.h.issued + [0] == s'.h.issued && s.h.owner + [k] == s'.h.owner;
  }

  lemma {:induction false} TicketsTaken(p: State -> bool, threads: nat, k: nat)
    requires Closed(p) && p(Init(threads)) && k <= threads
    ensures p(Ticketed(threads, k))
  {
    var s := Init(threads);
    if k == 0 {
      var s0 := Ticketed(threads, 0);
      assert s0.producers == s.producers && s0.h.issued == [] && s0.h.owner == [];
      assert s0 == s;
    } else {
      TicketsTaken(p, threads, k - 1);
      TicketTaken(threads, k - 1);
      OnStep(p, Ticketed(threads, k - 1), Produce(k - 1, 0), Ticketed(threads, k));
    }
  }

  /** A step of producer `i` that stores nothing. */
  lemma Moves(p: State -> bool, s: State, i: nat, from: Producer, to: Producer)
    requires Closed(p) && i < |s.producers| && p(At(s, i, from))
    requires ProducerStep(At(s, i, from), i, 0) == At(At(s, i, from), i, to)
    ensures p(At(s, i, to))
  {
    assert s.producers[i := from][i := to] == s.producers[i := to];
    OnStep(p, At(s, i, from), Produce(i, 0), At(s, i, to));
  }

  /** The two buffers after the second one is linked. */
  ghost function SecondLinked(s: State, i: nat): State {
    s.(heap := [NewBuffer(1, None).(next := Some(1)), NewBuffer(2, Some(0))],
       h := s.h.(chain := [0, 1], allocator := s.h.allocator + [i]))
  }

  lemma FindsNoRoom(p: State -> bool, s: State, i: nat, op: Enqueue)
    requires Closed(p) && i < |s.producers| && p(At(s, i, LoadTail(op)))
    requires s.heap == [NewBuffer(1, None)] && s.tailBuf == 0 && op.location >= NODE_SIZE
    ensures p(At(s, i, Alloc(op, 0)))
  {
    Moves(p, s, i, LoadTail(op), Locate(op, 0, 0));
    Moves(p, s, i, Locate(op, 0, 0), LoadNext(op, 0));
    Moves(p, s, i, LoadNext(op, 0), Alloc(op, 0));
  }

  lemma LinksSecond(p: State -> bool, s: State, i: nat, op: Enqueue)
    requires Closed(p) && i < |s.producers| && p(At(s, i, Alloc(op, 0)))
    requires s.heap == [NewBuffer(1, None)] && s.h.chain == [0]
    ensures p(At(SecondLinked(s, i), i, StoreTail(op, 1)))
  {
    var s0 := At(s, i, Alloc(op, 0));
    var s1 := ProducerStep(s0, i, 0);
    OnStep(p, s0, Produce(i, 0), s1);
    assert s1.heap == [NewBuffer(1, None), NewBuffer(2, Some(0))] && s1.producers[i] == Link(op, 0, 1);
    var s2 := ProducerStep(s1, i, 0);
    OnStep(p, s1, Produce(i, 0), s2);
    assert s2.heap == SecondLinked(s, i).heap && s2.h == SecondLinked(s, i).h;
    assert s2.producers == At(s, i, StoreTail(op, 1)).producers;
    assert s2 == At(SecondLinked(s, i), i, StoreTail(op, 1));
  }
}
