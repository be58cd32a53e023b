/**
 The counter of a Limit over several tasklets is not synchronized (src/executor/operator/physical_limit.cpp): its loads
 and stores are separate steps here, and the tasklets take them in any order. More rows than the limit can be let
 through, but never too few, so the merging operator above still has the rows that the query asks for.
 */
module LimitRace {
  import opened DataBlocks

  /** Where a tasklet stands in a call of Limit with these rows; `Over` is before the test that may end the tasklet. */
  datatype Place<T> =
    | Free
    | Check(rows: seq<T>)
    | Subtract(rows: seq<T>)
    | StoreRest(rows: seq<T>, last: int)
    | TakeRest(rows: seq<T>)
    | StoreZero(rows: seq<T>, result: int)
    | Over

  /** A tasklet and the inputs of its coming calls. */
  datatype Tasklet<T> = Tasklet(place: Place<T>, calls: seq<seq<T>>)

  /** `out` are the rows let through so far, `cut` those that were not. */
  datatype State<T> = State(limit: int, tasklets: seq<Tasklet<T>>, out: seq<T>, cut: seq<T>)

  ghost function Start<T>(limit: int, inputs: seq<seq<seq<T>>>): State<T> {
    State(limit, seq(|inputs|, i requires 0 <= i < |inputs| => Tasklet(Free, inputs[i])), [], [])
  }

  // ----- steps -----

  ghost function Go<T>(s: State<T>, i: nat, place: Place<T>): State<T>
    requires i < |s.tasklets|
  {
    s.(tasklets := s.tasklets[i := s.tasklets[i].(place := place)])
  }

  /** The call lets the first `n` of its rows through, or all if it has fewer. */
  ghost function Finish<T>(s: State<T>, i: nat, rows: seq<T>, n: nat): State<T>
    requires i < |s.tasklets|
  {
    var m := Min(n, |rows|);
    Go(s.(out := s.out + rows[..m], cut := s.cut + rows[m..]), i, Over)
  }

  /** One load or store of tasklet `i`. */
  ghost function Step<T>(s: State<T>, i: nat): State<T>
    requires i < |s.tasklets|
  {
    var t := s.tasklets[i];
    match t.place
    case Free =>
      if t.calls == [] then s
      else s.(tasklets := s.tasklets[i := Tasklet(if t.calls[0] == [] then Over else Check(t.calls[0]), t.calls[1..])])
    case Check(rows) => if s.limit <= 0 then Finish(s, i, rows, 0) else Go(s, i, Subtract(rows))
    case Subtract(rows) =>
      var last := s.limit - |rows|;
      Go(s, i, if last > 0 then StoreRest(rows, last) else TakeRest(rows))
    case StoreRest(rows, last) => Finish(s.(limit := last), i, rows, |rows|)
    case TakeRest(rows) => Go(s, i, StoreZero(rows, s.limit))
    case StoreZero(rows, result) => Finish(s.(limit := 0), i, rows, if result < 0 then 0 else result)
    case Over =>
      if s.limit != 0 then Go(s, i, Free)
      else s.(tasklets := s.tasklets[i := Tasklet(Free, [])], cut := s.cut + Concat(t.calls))
  }

  ghost predicate Schedule(tasklets: nat, schedule: seq<nat>) {
    forall k | 0 <= k < |schedule| :: schedule[k] < tasklets
  }

  ghost function Run<T>(limit: int, inputs: seq<seq<seq<T>>>, schedule: seq<nat>): (s: State<T>)
    requires Schedule(|inputs|, schedule)
    ensures |s.tasklets| == |inputs|
  {
    if schedule == [] then Start(limit, inputs)
    else Step(Run(limit, inputs, schedule[..|schedule| - 1]), schedule[|schedule| - 1])
  }

  ghost predicate AllDone<T>(s: State<T>) {
    forall i | 0 <= i < |s.tasklets| :: s.tasklets[i] == Tasklet(Free, [])
  }

  // ----- never too few -----

  /** What a tasklet has read is enough, together with the rows it is about to let through. */
  ghost predicate EnoughRead<T>(out: nat, place: Place<T>, limit: nat) {
    match place
    case StoreRest(rows, last) => last > 0 && out + |rows| + last >= limit
    case TakeRest(rows) => out + |rows| >= limit
    case StoreZero(rows, result) => result >= 0 && out + Min(result, |rows|) >= limit
    case _ => true
  }

  /** The rows let through and the rows still allowed are enough, and nothing is cut before enough rows are through. */
  ghost predicate Enough<T>(s: State<T>, limit: nat) {
    && s.limit >= 0 && |s.out| + s.limit >= limit && (s.cut == [] || |s.out| >= limit)
    && forall i | 0 <= i < |s.tasklets| :: EnoughRead(|s.out|, s.tasklets[i].place, limit)
  }

  lemma StillEnough<T>(s: State<T>, s': State<T>, i: nat, limit: nat)
    requires Enough(s, limit) && i < |s.tasklets| == |s'.tasklets| && |s.out| <= |s'.out|
    requires forall j | 0 <= j < |s.tasklets| && j != i :: s'.tasklets[j] == s.tasklets[j]
    requires EnoughRead(|s'.out|, s'.tasklets[i].place, limit)
    requires s'.limit >= 0 && |s'.out| + s'.limit >= limit && (s'.cut == [] || |s'.out| >= limit)
    ensures Enough(s', limit)
  {
    forall j | 0 <= j < |s'.tasklets|
      ensures EnoughRead(|s'.out|, s'.tasklets[j].place, limit)
    {
      assert EnoughRead(|s.out|, s.tasklets[j].place, limit);
    }
  }

  lemma StepEnough<T>(s: State<T>, i: nat, limit: nat)
    requires Enough(s, limit) && i < |s.tasklets|
    ensures Enough(Step(s, i), limit)
  {
    assert EnoughRead(|s.out|, s.tasklets[i].place, limit);
    StillEnough(s, Step(s, i), i, limit);
  }

  // ----- every row is somewhere -----

  ghost function InCall<T>(place: Place<T>): seq<T> {
    match place
    case Free => []
    case Over => []
    case _ => place.rows
  }

  /** The rows that a tasklet has still to look at. */
  ghost function Coming<T>(t: Tasklet<T>): multiset<T> {
    multiset(InCall(t.place) + Concat(t.calls))
  }

  ghost function AllComing<T>(tasklets: seq<Tasklet<T>>): multiset<T> {
    if tasklets == [] then multiset{} else AllComing(tasklets[1..]) + Coming(tasklets[0])
  }

  lemma AddToBoth<T>(a: multiset<T>, x: multiset<T>, b: multiset<T>, y: multiset<T>, z: multiset<T>)
    requires a + x == b + y
    ensures (a + z) + x == (b + z) + y
  {
    forall e: T ensures ((a + z) + x)[e] == ((b + z) + y)[e] {
      assert (a + x)[e] == (b + y)[e];
    }
  }

  lemma {:induction false} OneChanges<T>(tasklets: seq<Tasklet<T>>, i: nat, t: Tasklet<T>)
    requires i < |tasklets|
    ensures AllComing(tasklets[i := t]) + Coming(tasklets[i]) == AllComing(tasklets) + Coming(t)
    decreases |tasklets|
  {
    var rest, rest' := tasklets[1..], tasklets[i := t][1..];
    if i == 0 {
      assert rest' == rest;
      Exchange(AllComing(rest), Coming(t), Coming(tasklets[0]));
    } else {
      assert rest' == rest[i - 1 := t];
      OneChanges(rest, i - 1, t);
      AddToBoth(AllComing(rest'), Coming(tasklets[i]), AllComing(rest), Coming(t), Coming(tasklets[0]));
    }
  }

  lemma Exchange<T>(a: multiset<T>, x: multiset<T>, y: multiset<T>)
    ensures (a + x) + y == (a + y) + x
  {
  }

  /** The rows looked at. */
  ghost function Seen<T>(s: State<T>): multiset<T> {
    multiset(s.out + s.cut)
  }

  lemma Conserved<T>(seen: multiset<T>, all: multiset<T>, own: multiset<T>, seen': multiset<T>, all': multiset<T>,
                     own': multiset<T>)
    requires all' + own == all + own' && seen' + own' == seen + own
    ensures seen' + all' == seen + all
  {
    forall e: T ensures (seen' + all')[e] == (seen + all)[e] {
      assert (all' + own)[e] == (all + own')[e] && (seen' + own')[e] == (seen + own)[e];
    }
  }

  /** A tasklet's step moves rows from those it has to look at to those looked at. */
  lemma MovesRows<T>(s: State<T>, i: nat, s': State<T>)
    requires i < |s.tasklets| && |s'.tasklets| == |s.tasklets| && s'.tasklets == s.tasklets[i := s'.tasklets[i]]
    requires Seen(s') + Coming(s'.tasklets[i]) == Seen(s) + Coming(s.tasklets[i])
    ensures Seen(s') + AllComing(s'.tasklets) == Seen(s) + AllComing(s.tasklets)
  {
    OneChanges(s.tasklets, i, s'.tasklets[i]);
    Conserved(Seen(s), AllComing(s.tasklets), Coming(s.tasklets[i]),
              Seen(s'), AllComing(s'.tasklets), Coming(s'.tasklets[i]));
  }

  lemma RowsSplit<T>(out: seq<T>, cut: seq<T>, rows: seq<T>, m: nat, calls: seq<T>)
    requires m <= |rows|
    ensures multiset((out + rows[..m]) + (cut + rows[m..])) + multiset([] + calls)
      == multiset(out + cut) + multiset(rows + calls)
  {
    assert rows == rows[..m] + rows[m..] && [] + calls == calls;
    SumOfTwo(out + rows[..m], cut + rows[m..]);
    SumOfTwo(out, rows[..m]);
    SumOfTwo(cut, rows[m..]);
    SumOfTwo(rows[..m], rows[m..]);
    SumOfTwo(out, cut);
    SumOfTwo(rows, calls);
  }

  lemma SumOfTwo<T>(a: seq<T>, b: seq<T>)
    ensures multiset(a + b) == multiset(a) + multiset(b)
  {
  }

  lemma FinishKeeps<T>(s: State<T>, i: nat, rows: seq<T>, n: nat)
    requires i < |s.tasklets| && InCall(s.tasklets[i].place) == rows
    ensures var s' := Finish(s, i, rows, n); Seen(s') + AllComing(s'.tasklets) == Seen(s) + AllComing(s.tasklets)
  {
    RowsSplit(s.out, s.cut, rows, Min(n, |rows|), Concat(s.tasklets[i].calls));
    MovesRows(s, i, Finish(s, i, rows, n));
  }

  lemma CallKeeps<T>(s: State<T>, i: nat)
    requires i < |s.tasklets| && s.tasklets[i].place.Free? && s.tasklets[i].calls != []
    ensures Coming(Step(s, i).tasklets[i]) == Coming(s.tasklets[i])
  {
    var calls := s.tasklets[i].calls;
    ConcatCons(calls[0], calls[1..]);
    assert calls == [calls[0]] + calls[1..];
    assert [] + Concat(calls) == calls[0] + Concat(calls[1..]);
  }

  lemma OverKeeps<T>(s: State<T>, i: nat)
    requires i < |s.tasklets| && s.tasklets[i].place.Over?
    ensures var s' := Step(s, i); Seen(s') + Coming(s'.tasklets[i]) == Seen(s) + Coming(s.tasklets[i])
  {
    var rows := Concat(s.tasklets[i].calls);
    assert [] + rows == rows && Concat<T>([]) == [];
    assert (s.out + s.cut) + rows == s.out + (s.cut + rows);
    SumOfTwo(s.out + s.cut, rows);
  }

  ghost predicate SameRows<T>(s: State<T>, s': State<T>) {
    Seen(s') + AllComing(s'.tasklets) == Seen(s) + AllComing(s.tasklets)
  }

  lemma CheckKeeps<T>(s: State<T>, i: nat)
    requires i < |s.tasklets| && s.tasklets[i].place.Check?
    ensures SameRows(s, Step(s, i))
  {
    if s.limit <= 0 {
      FinishKeeps(s, i, s.tasklets[i].place.rows, 0);
    } else {
      MovesRows(s, i, Step(s, i));
    }
  }

  lemma StoreKeeps<T>(s: State<T>, i: nat)
    requires i < |s.tasklets| && (s.tasklets[i].place.StoreRest? || s.tasklets[i].place.StoreZero?)
    ensures SameRows(s, Step(s, i))
  {
    var p := s.tasklets[i].place;
    if p.StoreRest? {
      FinishKeeps(s.(limit := p.last), i, p.rows, |p.rows|);
    } else {
      FinishKeeps(s.(limit := 0), i, p.rows, if p.result < 0 then 0 else p.result);
    }
  }

  lemma StepKeeps<T>(s: State<T>, i: nat)
    requires i < |s.tasklets|
    ensures SameRows(s, Step(s, i))
  {
    var t := s.tasklets[i];
    if t.place.Check? {
      CheckKeeps(s, i);
    } else if t.place.StoreRest? || t.place.StoreZero? {
      StoreKeeps(s, i);
    } else {
      if t.place.Over? {
        OverKeeps(s, i);
      } else if t.place.Free? && t.calls != [] {
        CallKeeps(s, i);
      }
      MovesRows(s, i, Step(s, i));
    }
  }

  ghost function InputRows<T>(inputs: seq<seq<seq<T>>>): multiset<T> {
    AllComing(Start(0, inputs).tasklets)
  }

  lemma {:induction false} DoneRows<T>(tasklets: seq<Tasklet<T>>)
    requires forall i | 0 <= i < |tasklets| :: tasklets[i] == Tasklet(Free, [])
    ensures AllComing(tasklets) == multiset{}
    decreases |tasklets|
  {
    if tasklets != [] {
      DoneRows(tasklets[1..]);
      assert Concat<T>([]) == [];
    }
  }

  lemma {:induction false} RunFacts<T>(limit: nat, inputs: seq<seq<seq<T>>>, schedule: seq<nat>)
    requires Schedule(|inputs|, schedule)
    ensures Enough(Run(limit, inputs, schedule), limit) && SameRows(Start(0, inputs), Run(limit, inputs, schedule))
    decreases |schedule|
  {
    if schedule != [] {
      var front, i := schedule[..|schedule| - 1], schedule[|schedule| - 1];
      RunFacts(limit, inputs, front);
      StepEnough(Run(limit, inputs, front), i, limit);
      StepKeeps(Run(limit, inputs, front), i);
    }
  }

  /** At least `n` of these rows, or all of them. */
  ghost predicate EnoughOf<T>(out: seq<T>, rows: multiset<T>, n: nat) {
    multiset(out) <= rows && Min(n, |rows|) <= |out| <= |rows|
  }

  /** As many rows as the query asks for and these rows allow. */
  ghost predicate AskedFor<T>(result: seq<T>, rows: multiset<T>, offset: nat, limit: nat) {
    multiset(result) <= rows && |result| == Min(limit, if offset < |rows| then |rows| - offset else 0)
  }

  /**
   Whatever the order of the loads and stores, when all tasklets have ended, at least `limit` rows are through,
   or all rows there are, and they are rows of the input.
   */
  lemma EnoughPass<T>(limit: nat, inputs: seq<seq<seq<T>>>, schedule: seq<nat>)
    requires Schedule(|inputs|, schedule) && AllDone(Run(limit, inputs, schedule))
    ensures EnoughOf(Run(limit, inputs, schedule).out, InputRows(inputs), limit)
  {
    var s := Run(limit, inputs, schedule);
    RunFacts(limit, inputs, schedule);
    DoneRows(s.tasklets);
    NothingAdded(Seen(s), InputRows(inputs));
    SeenAll(s, InputRows(inputs));
  }

  lemma NothingAdded<T>(seen: multiset<T>, rows: multiset<T>)
    requires seen + multiset{} == multiset([] + []) + rows
    ensures seen == rows
  {
    assert seen + multiset{} == seen && multiset([] + []) + rows == rows;
  }

  lemma SeenAll<T>(s: State<T>, rows: multiset<T>)
    requires Seen(s) == rows
    ensures multiset(s.out) <= rows && |rows| == |s.out| + |s.cut|
  {
    SumOfTwo(s.out, s.cut);
    assert |multiset(s.out + s.cut)| == |s.out + s.cut|;
  }

  lemma OneMoreStep<T>(limit: int, inputs: seq<seq<seq<T>>>, schedule: seq<nat>, i: nat)
    requires Schedule(|inputs|, schedule) && i < |inputs|
    ensures Schedule(|inputs|, schedule + [i])
    ensures Run(limit, inputs, schedule + [i]) == Step(Run(limit, inputs, schedule), i)
  {
    assert (schedule + [i])[..|schedule|] == schedule;
  }

  /** The two tasklets of the case below, at these places. */
  ghost predicate Racing<T>(s: State<T>, limit: int, first: Place<T>, second: Place<T>, out: seq<T>) {
    s.limit == limit && s.tasklets == [Tasklet(first, []), Tasklet(second, [])] && s.out == out
  }

  /** Two tasklets with a row each and limit 1: both read the limit before one of them stores it, and both rows pass. */
  lemma TooManyPass<T>(a: T, b: T) returns (schedule: seq<nat>)
    ensures Schedule(2, schedule) && AllDone(Run(1, [[[a]], [[b]]], schedule))
    ensures Run(1, [[[a]], [[b]]], schedule).out == [a, b]
  {
    var inputs := [[[a]], [[b]]];
    schedule := BothRead(a, b);
    OneMoreStep(1, inputs, schedule, 0);
    schedule := schedule + [0];
    assert Racing(Run(1, inputs, schedule), 0, Over, StoreZero([b], 1), [a]);
    OneMoreStep(1, inputs, schedule, 1);
    schedule := schedule + [1];
    assert Racing(Run(1, inputs, schedule), 0, Over, Over, [a, b]);
    OneMoreStep(1, inputs, schedule, 0);
    schedule := schedule + [0];
    assert Racing(Run(1, inputs, schedule), 0, Free, Over, [a, b]);
    OneMoreStep(1, inputs, schedule, 1);
    schedule := schedule + [1];
    assert Racing(Run(1, inputs, schedule), 0, Free, Free, [a, b]);
  }

  lemma BothRead<T>(a: T, b: T) returns (schedule: seq<nat>)
    ensures Schedule(2, schedule)
    ensures Racing(Run(1, [[[a]], [[b]]], schedule), 1, StoreZero([a], 1), StoreZero([b], 1), [])
  {
    var inputs := [[[a]], [[b]]];
    schedule := OneReads(a, b, 0, []);
    schedule := OneReads(a, b, 1, schedule);
  }

  lemma OneReads<T>(a: T, b: T, i: nat, before: seq<nat>) returns (schedule: seq<nat>)
    requires i < 2 && Schedule(2, before)
    requires var s := Run(1, [[[a]], [[b]]], before);
      s.limit == 1 && |s.tasklets| == 2 && s.tasklets[i] == Tasklet(Free, [[if i == 0 then a else b]])
    ensures Schedule(2, schedule)
    ensures Run(1, [[[a]], [[b]]], schedule) == Read(Run(1, [[[a]], [[b]]], before), i, if i == 0 then a else b)
  {
    var inputs := [[[a]], [[b]]];
    FourSteps(Run(1, inputs, before), i, if i == 0 then a else b);
    OneMoreStep(1, inputs, before, i);
    OneMoreStep(1, inputs, before + [i], i);
    OneMoreStep(1, inputs, before + [i] + [i], i);
    OneMoreStep(1, inputs, before + [i] + [i] + [i], i);
    schedule := before + [i] + [i] + [i] + [i];
  }

  /** Tasklet `i` has read the limit 1 for its row and not stored it yet. */
  ghost function Read<T>(s: State<T>, i: nat, row: T): State<T>
    requires i < |s.tasklets|
  {
    s.(tasklets := s.tasklets[i := Tasklet(StoreZero([row], 1), [])])
  }

  lemma FourSteps<T>(s: State<T>, i: nat, row: T)
    requires i < |s.tasklets| && s.limit == 1 && s.tasklets[i] == Tasklet(Free, [[row]])
    ensures Step(Step(Step(Step(s, i), i), i), i) == Read(s, i, row)
  {
    var s1 := Step(s, i);
    assert [[row]][1..] == [];
    assert s1.tasklets[i] == Tasklet(Check([row]), []);
    var s2 := Step(s1, i);
    assert s2.tasklets[i] == Tasklet(Subtract([row]), []);
    var s3 := Step(s2, i);
    assert s3.tasklets[i] == Tasklet(TakeRest([row]), []);
    assert Step(s3, i).tasklets == Read(s, i, row).tasklets;
  }

  /**
   The plan for several tasklets with the counter as it is: however the rows that pass arrive at the merging
   operator, positions `offset` to `offset + limit` of them are as many rows as the query asks for and the input
   holds, and they are rows of the input.
   */
  lemma RacingLimit<T>(limit: nat, offset: nat, inputs: seq<seq<seq<T>>>, schedule: seq<nat>, arrived: seq<T>)
    requires Schedule(|inputs|, schedule) && AllDone(Run(limit + offset, inputs, schedule))
    requires multiset(arrived) == multiset(Run(limit + offset, inputs, schedule).out)
    ensures AskedFor(Window(arrived, offset, limit), InputRows(inputs), offset, limit)
  {
    EnoughPass(limit + offset, inputs, schedule);
    WindowOfEnough(arrived, Run(limit + offset, inputs, schedule).out, InputRows(inputs), offset, limit);
  }

  lemma WindowOfEnough<T>(arrived: seq<T>, out: seq<T>, rows: multiset<T>, offset: nat, limit: nat)
    requires multiset(arrived) == multiset(out) && EnoughOf(out, rows, limit + offset)
    ensures AskedFor(Window(arrived, offset, limit), rows, offset, limit)
  {
    assert |multiset(arrived)| == |arrived| && |multiset(out)| == |out|;
    WindowPart(arrived, offset, limit);
  }

  lemma WindowPart<T>(rows: seq<T>, offset: nat, limit: nat)
    ensures multiset(Window(rows, offset, limit)) <= multiset(rows)
  {
    if offset < |rows| {
      var end := Min(|rows|, offset + limit);
      assert rows == rows[..offset] + rows[offset..end] + rows[end..];
    }
  }
}
