/**
 src/executor/fragment_builder.cpp: a recursive procedure that adds operators to the current
 fragment and starts a new fragment wherever an operator reads from a queue.
 */
module FragmentBuilder {
  import opened Sequences
  import opened Wrappers
  import opened PhysicalPlan

  // ----- the fragments a plan is meant to have -----

  ghost function Size(op: PhysicalOperator): nat {
    1 + (if op.left.Some? then Size(op.left.value) else 0) + (if op.right.Some? then Size(op.right.value) else 0)
      + SizeAll(op.others)
  }

  ghost function SizeAll(ops: seq<PhysicalOperator>): nat {
    if ops == [] then 0 else Size(ops[0]) + SizeAll(ops[1..])
  }

  lemma {:induction false} SizeConcat(a: seq<PhysicalOperator>, b: seq<PhysicalOperator>)
    ensures SizeAll(a + b) == SizeAll(a) + SizeAll(b)
  {
    if a == [] {
      assert a + b == b;
    } else {
      assert (a + b)[1..] == a[1..] + b;
      SizeConcat(a[1..], b);
    }
  }

  lemma CutBelowSmaller(op: PhysicalOperator)
    ensures SizeAll(CutBelow(op)) < Size(op)
  {
    SizeConcat(AsSeq(op.left), AsSeq(op.right));
    SizeConcat(AsSeq(op.left) + AsSeq(op.right), op.others);
  }

  /**
   One fragment without its children: operators in the order they are added, type, source, and the plans that
   feed it.
   */
  datatype Pipeline = Pipeline(
    operators: seq<PhysicalOperator>, kind: FragmentType, source: SourceType, feeds: seq<PhysicalOperator>)

  ghost function PipelineOf(op: PhysicalOperator): (p: Pipeline)
    ensures SizeAll(p.feeds) < Size(op)
  {
    CutBelowSmaller(op);
    if Pipelined(op) then
      var p := PipelineOf(op.left.value);
      p.(operators := [op] + p.operators, kind := if op.kind.Blocking? then OwnType(op) else p.kind)
    else Pipeline([op], OwnType(op), OwnSource(op), CutBelow(op))
  }

  /** Does the builder accept the plan? */
  ghost predicate Accepts(op: PhysicalOperator)
    decreases Size(op), 0
  {
    CutBelowSmaller(op);
    ShapeOk(op) && if Pipelined(op) then Accepts(op.left.value) else AcceptsAll(CutBelow(op))
  }

  ghost predicate AcceptsAll(ops: seq<PhysicalOperator>)
    decreases SizeAll(ops), 1 + |ops|
  {
    ops == [] || (Accepts(ops[0]) && AcceptsAll(ops[1..]))
  }

  /** How many fragments a plan needs. */
  ghost function Count(op: PhysicalOperator): nat
    decreases Size(op), 0
  {
    1 + CountAll(PipelineOf(op).feeds)
  }

  ghost function CountAll(ops: seq<PhysicalOperator>): nat
    decreases SizeAll(ops), 1 + |ops|
  {
    if ops == [] then 0 else Count(ops[0]) + CountAll(ops[1..])
  }

  /** The fragment of `op` when the next free fragment number is `id`. */
  ghost function FragmentOf(op: PhysicalOperator, sink: SinkType, id: nat): Fragment
    decreases Size(op), 0
  {
    var p := PipelineOf(op);
    Fragment(id, p.operators, p.kind, Some(p.source), sink, FragmentsOf(p.feeds, id + 1))
  }

  ghost function FragmentsOf(ops: seq<PhysicalOperator>, id: nat): seq<Fragment>
    decreases SizeAll(ops), 1 + |ops|
  {
    if ops == [] then [] else [FragmentOf(ops[0], LocalQueueSink, id)] + FragmentsOf(ops[1..], id + Count(ops[0]))
  }

  // ----- lists of plans -----

  lemma {:induction false} AcceptsConcat(a: seq<PhysicalOperator>, b: seq<PhysicalOperator>)
    ensures AcceptsAll(a + b) <==> AcceptsAll(a) && AcceptsAll(b)
    decreases |a|
  {
    if a == [] {
      assert a + b == b;
    } else {
      assert (a + b)[1..] == a[1..] + b;
      AcceptsConcat(a[1..], b);
    }
  }

  lemma {:induction false} FragmentsConcat(a: seq<PhysicalOperator>, b: seq<PhysicalOperator>, id: nat)
    ensures CountAll(a + b) == CountAll(a) + CountAll(b)
    ensures FragmentsOf(a + b, id) == FragmentsOf(a, id) + FragmentsOf(b, id + CountAll(a))
    decreases |a|
  {
    if a == [] {
      assert a + b == b;
    } else {
      assert (a + b)[1..] == a[1..] + b;
      FragmentsConcat(a[1..], b, id + Count(a[0]));
    }
  }

  lemma OneMore(a: seq<PhysicalOperator>, op: PhysicalOperator, id: nat)
    ensures AcceptsAll(a + [op]) <==> AcceptsAll(a) && Accepts(op)
    ensures CountAll(a + [op]) == CountAll(a) + Count(op)
    ensures FragmentsOf(a + [op], id) == FragmentsOf(a, id) + [FragmentOf(op, LocalQueueSink, id + CountAll(a))]
  {
    AcceptsConcat(a, [op]);
    FragmentsConcat(a, [op], id);
    assert FragmentsOf([op], id + CountAll(a)) == [FragmentOf(op, LocalQueueSink, id + CountAll(a))];
  }

  lemma {:induction false} AcceptsLast(a: seq<PhysicalOperator>, op: PhysicalOperator)
    ensures AcceptsAll(a + [op]) <==> AcceptsAll(a) && Accepts(op)
    ensures CountAll(a + [op]) == CountAll(a) + Count(op)
    decreases |a|
  {
    if a == [] {
      assert a + [op] == [op] && [op][1..] == [];
    } else {
      assert (a + [op])[1..] == a[1..] + [op];
      AcceptsLast(a[1..], op);
    }
  }

  /** If a plan is refused, so are all the plans around it. */
  lemma RefusedAmong(done: seq<PhysicalOperator>, op: PhysicalOperator, ops: seq<PhysicalOperator>)
    requires done + [op] <= ops && !Accepts(op)
    ensures !AcceptsAll(ops)
  {
    AcceptsLast(done, op);
    AcceptsConcat(done + [op], ops[|done| + 1..]);
    assert ops == done + [op] + ops[|done| + 1..];
  }

  // ----- several plans -----

  /** `AddNext`: every fragment of the later plan that has no children gets the root of the earlier one as its child. */
  function Graft(f: Fragment, root: Fragment): Fragment {
    f.(children := if f.children == [] then [root] else GraftAll(f.children, root))
  }

  function GraftAll(fs: seq<Fragment>, root: Fragment): (r: seq<Fragment>)
    ensures |r| == |fs|
  {
    if fs == [] then [] else [Graft(fs[0], root)] + GraftAll(fs[1..], root)
  }

  /** The plans' fragments one behind the other. */
  ghost function Chained(ops: seq<PhysicalOperator>, id: nat): Option<Fragment> {
    if ops == [] then None
    else
      var n := |ops| - 1;
      var next := FragmentOf(ops[n], ResultSink, id + CountAll(ops[..n]));
      Some(Behind(next, Chained(ops[..n], id)))
  }

  function Behind(next: Fragment, before: Option<Fragment>): Fragment {
    if before.None? then next else Graft(next, before.value)
  }

  lemma ChainedOneMore(ops: seq<PhysicalOperator>, op: PhysicalOperator, id: nat)
    ensures Chained(ops + [op], id) == Some(Behind(FragmentOf(op, ResultSink, id + CountAll(ops)), Chained(ops, id)))
  {
    assert (ops + [op])[..|ops|] == ops;
  }

  lemma FusionPipeline(op: PhysicalOperator)
    requires op.kind.Fusion? && op.left.Some? && !ChainedFusion(op)
    ensures PipelineOf(op) ==
      Pipeline([op], SerialMaterialize, LocalQueueSource, AsSeq(op.left) + AsSeq(op.right) + op.others)
    ensures Accepts(op) <==> AcceptsAll(AsSeq(op.left) + AsSeq(op.right) + op.others)
  {
  }

  // ----- the builder -----

  class PlanFragment {
    const id: nat
    const sink: SinkType
    var operators: seq<PhysicalOperator>
    var kind: FragmentType
    var source: Option<SourceType>
    var children: seq<Fragment>
    /** How often a source was set. */
    ghost var sourceCount: nat

    constructor (id: nat, sink: SinkType)
      ensures this.id == id && this.sink == sink
      ensures operators == [] && kind == SerialMaterialize && source == None && children == [] && sourceCount == 0
    {
      this.id := id;
      this.sink := sink;
      operators := [];
      kind := SerialMaterialize;
      source := None;
      children := [];
      sourceCount := 0;
    }

    method SetSource(s: SourceType)
      modifies this`source, this`sourceCount
      ensures source == Some(s) && sourceCount == old(sourceCount) + 1
    {
      source := Some(s);
      sourceCount := sourceCount + 1;
    }

    /** Only the children may have changed. */
    twostate predicate SamePipeline()
      reads this
    {
      operators == old(operators) && kind == old(kind) && source == old(source) && sourceCount == old(sourceCount)
    }

    function Snapshot(): Fragment
      reads this
    {
      Fragment(id, operators, kind, source, sink, children)
    }
  }

  class FragmentBuilder {
    var nextId: nat

    constructor ()
      ensures nextId == 0
    {
      nextId := 0;
    }

    /** The pipeline of `op` was added to `current`, with one source and one child fragment for each of its feeds. */
    twostate predicate Built(op: PhysicalOperator, current: PlanFragment, ok: bool)
      reads this, current
    {
      var p := PipelineOf(op);
      && ok == Accepts(op)
      && (ok ==>
            && current.operators == old(current.operators) + p.operators && current.kind == p.kind
            && current.source == Some(p.source) && current.sourceCount == old(current.sourceCount) + 1
            && current.children == old(current.children) + FragmentsOf(p.feeds, old(nextId))
            && nextId == old(nextId) + CountAll(p.feeds))
    }

    /** One child fragment for each of these plans was added to `current`. */
    twostate predicate AddedChildren(ops: seq<PhysicalOperator>, current: PlanFragment, ok: bool)
      reads this, current
    {
      && ok == AcceptsAll(ops)
      && (ok ==>
            && nextId == old(nextId) + CountAll(ops)
            && current.children == old(current.children) + FragmentsOf(ops, old(nextId)))
      && current.SamePipeline()
    }

    /** A new fragment for `op`, added to the children of `current`. */
    method AddChildFragment(op: PhysicalOperator, current: PlanFragment) returns (ok: bool)
      modifies this, current
      ensures ok == Accepts(op)
      ensures ok ==> nextId == old(nextId) + Count(op)
      ensures ok ==> current.children == old(current.children) + [FragmentOf(op, LocalQueueSink, old(nextId))]
      ensures current.SamePipeline()
      decreases op, 4
    {
      var next := new PlanFragment(nextId, LocalQueueSink);
      nextId := nextId + 1;
      ok := BuildFragments(op, next);
      if ok {
        assert next.operators == PipelineOf(op).operators;
        assert next.children == FragmentsOf(PipelineOf(op).feeds, old(nextId) + 1);
        current.children := current.children + [next.Snapshot()];
      }
    }

    /** Several new fragments, one after the other. */
    method AddChildFragments(ops: seq<PhysicalOperator>, current: PlanFragment) returns (ok: bool)
      modifies this, current
      ensures AddedChildren(ops, current, ok)
      decreases ops, 6
    {
      ok := true;
      ghost var done: seq<PhysicalOperator> := [];
      ghost var id, children := nextId, current.children;
      for i := 0 to |ops|
        invariant done == ops[..i] && Added(done, current, id, children) && current.SamePipeline()
      {
        ok := AddNext(ops[i], current, done, id, children);
        if !ok {
          RefusedAmong(done, ops[i], ops);
          return;
        }
        done := done + [ops[i]];
      }
      assert done == ops;
    }

    /** The plans `done` have their fragments among the children of `current`. */
    ghost predicate Added(done: seq<PhysicalOperator>, current: PlanFragment, id: nat, children: seq<Fragment>)
      reads this, current
    {
      AcceptsAll(done) && nextId == id + CountAll(done) && current.children == children + FragmentsOf(done, id)
    }

    method AddNext(op: PhysicalOperator, current: PlanFragment,
                   ghost done: seq<PhysicalOperator>, ghost id: nat, ghost children: seq<Fragment>)
      returns (ok: bool)
      requires Added(done, current, id, children)
      modifies this, current
      ensures ok == Accepts(op) && current.SamePipeline()
      ensures ok ==> Added(done + [op], current, id, children)
      decreases op, 5
    {
      OneMore(done, op, id);
      Associate(children, FragmentsOf(done, id), [FragmentOf(op, LocalQueueSink, id + CountAll(done))]);
      ok := AddChildFragment(op, current);
    }

    /** Adds `op` and everything below it to `current` and to new child fragments. */
    method BuildFragments(op: PhysicalOperator, current: PlanFragment) returns (ok: bool)
      modifies this, current
      ensures Built(op, current, ok)
      decreases op, 3
    {
      match op.kind
      case Statement(_) | Compact | Search(_) | Scan(_) => ok := BuildWithoutInput(op, current);
      case Streaming(_) | Blocking(_) => ok := BuildPipelined(op, current);
      case Projection => ok := BuildProjection(op, current);
      case Fusion =>
        if op.left.None? {
          ok := false;
        } else if op.left.value.kind.Fusion? {
          ok := BuildChainedFusion(op, current);
        } else {
          ok := BuildFusion(op, current);
        }
      case Merge(_) => ok := BuildMerge(op, current);
      case IndexStep(_) => ok := BuildIndexStep(op, current);
      case CompactIndexPrepare => ok := BuildCompactIndexPrepare(op, current);
      case CompactFinish => ok := BuildCompactFinish(op, current);
      case Refused(_) => ok := false;
    }

    /** Statements and scans: they end the fragment and have no children. */
    method BuildWithoutInput(op: PhysicalOperator, current: PlanFragment) returns (ok: bool)
      requires op.kind.Statement? || op.kind.Compact? || op.kind.Search? || op.kind.Scan?
      modifies this, current
      ensures Built(op, current, ok)
    {
      if op.left.Some? || op.right.Some? {
        return false;
      }
      current.operators := current.operators + [op];
      if op.kind.Search? {
        current.kind := if op.taskletCount == 1 then SerialMaterialize else ParallelMaterialize;
        current.SetSource(TableSource);
      } else if op.kind.Scan? {
        current.kind := ParallelStream;
        current.SetSource(TableSource);
      } else {
        current.kind := if op.kind.Compact? then ParallelMaterialize else SerialMaterialize;
        current.SetSource(EmptySource);
      }
      return true;
    }

    /** Operators that work on the rows of their input inside the same fragment. */
    method BuildPipelined(op: PhysicalOperator, current: PlanFragment) returns (ok: bool)
      requires op.kind.Streaming? || op.kind.Blocking?
      modifies this, current
      ensures Built(op, current, ok)
      decreases op, 2
    {
      if op.left.None? {
        return false;
      }
      if op.kind.Streaming? {
        current.kind := ParallelMaterialize;
      }
      current.operators := current.operators + [op];
      ok := BuildFragments(op.left.value, current);
      if op.kind == Blocking(Aggregate) || op.kind == Blocking(Top) {
        current.kind := ParallelMaterialize;
      } else if op.kind.Blocking? {
        current.kind := SerialMaterialize;
      }
    }

    method BuildProjection(op: PhysicalOperator, current: PlanFragment) returns (ok: bool)
      requires op.kind.Projection?
      modifies this, current
      ensures Built(op, current, ok)
      decreases op, 2
    {
      current.operators := current.operators + [op];
      if op.left.None? {
        current.kind := SerialMaterialize;
        current.SetSource(EmptySource);
        ok := true;
      } else {
        current.kind := ParallelStream;
        ok := BuildFragments(op.left.value, current);
      }
    }

    method BuildChainedFusion(op: PhysicalOperator, current: PlanFragment) returns (ok: bool)
      requires ChainedFusion(op)
      modifies this, current
      ensures Built(op, current, ok)
      decreases op, 2
    {
      if op.right.Some? {
        return false;
      }
      current.operators := current.operators + [op];
      ok := BuildFragments(op.left.value, current);
    }

    /** Merging operators: their inputs become child fragments that write to a queue. */
    method BuildMerge(op: PhysicalOperator, current: PlanFragment) returns (ok: bool)
      requires op.kind.Merge?
      modifies this, current
      ensures Built(op, current, ok)
      decreases op, 2
    {
      current.operators := current.operators + [op];
      current.SetSource(LocalQueueSource);
      if op.left.None? {
        return false;
      }
      current.kind := SerialMaterialize;
      ok := AddLeftAndRight(op, current);
    }

    /** The first Fusion of a chain also reads the fragments of its further children. */
    method BuildFusion(op: PhysicalOperator, current: PlanFragment) returns (ok: bool)
      requires op.kind.Fusion? && op.left.Some? && !ChainedFusion(op)
      modifies this, current
      ensures Built(op, current, ok)
      decreases op, 2
    {
      current.operators := current.operators + [op];
      current.SetSource(LocalQueueSource);
      current.kind := SerialMaterialize;
      FusionPipeline(op);
      ok := AddInputs(op, current);
    }

    /** Child fragments for the left and right input and for the further ones. */
    method AddInputs(op: PhysicalOperator, current: PlanFragment) returns (ok: bool)
      requires op.left.Some?
      modifies this, current
      ensures AddedChildren(AsSeq(op.left) + AsSeq(op.right) + op.others, current, ok)
      decreases op, 1
    {
      ghost var two := AsSeq(op.left) + AsSeq(op.right);
      AcceptsConcat(two, op.others);
      FragmentsConcat(two, op.others, nextId);
      ok := AddLeftAndRight(op, current);
      if ok {
        ok := AddChildFragments(op.others, current);
        Associate(old(current.children), FragmentsOf(two, old(nextId)),
                  FragmentsOf(op.others, old(nextId) + CountAll(two)));
      }
    }

    /** Child fragments for the left input and, if there is one, the right input. */
    method AddLeftAndRight(op: PhysicalOperator, current: PlanFragment) returns (ok: bool)
      requires op.left.Some?
      modifies this, current
      ensures AddedChildren(AsSeq(op.left) + AsSeq(op.right), current, ok)
      decreases op, 0
    {
      OneMore([], op.left.value, nextId);
      assert [] + [op.left.value] == AsSeq(op.left);
      ok := AddChildFragment(op.left.value, current);
      if op.right.Some? {
        OneMore(AsSeq(op.left), op.right.value, old(nextId));
        if ok {
          ok := AddChildFragment(op.right.value, current);
        }
      } else {
        assert AsSeq(op.left) + AsSeq(op.right) == AsSeq(op.left);
      }
    }

    method BuildIndexStep(op: PhysicalOperator, current: PlanFragment) returns (ok: bool)
      requires op.kind.IndexStep?
      modifies this, current
      ensures Built(op, current, ok)
      decreases op, 2
    {
      if op.left.None? || op.right.Some? {
        return false;
      }
      current.operators := current.operators + [op];
      current.kind := if op.kind.step.CreateIndexFinish? then SerialMaterialize else ParallelMaterialize;
      current.SetSource(LocalQueueSource);
      OneMore([], op.left.value, nextId);
      assert [] + [op.left.value] == AsSeq(op.left);
      ok := AddChildFragment(op.left.value, current);
    }

    method BuildCompactIndexPrepare(op: PhysicalOperator, current: PlanFragment) returns (ok: bool)
      requires op.kind.CompactIndexPrepare?
      modifies this, current
      ensures Built(op, current, ok)
      decreases op, 2
    {
      if op.right.Some? {
        return false;
      }
      current.operators := current.operators + [op];
      current.kind := SerialMaterialize;
      current.SetSource(EmptySource);
      ok := true;
      if op.left.Some? {
        OneMore([], op.left.value, nextId);
        assert [] + [op.left.value] == AsSeq(op.left);
        ok := AddChildFragment(op.left.value, current);
      }
    }

    method BuildCompactFinish(op: PhysicalOperator, current: PlanFragment) returns (ok: bool)
      requires op.kind.CompactFinish?
      modifies this, current
      ensures Built(op, current, ok)
      decreases op, 2
    {
      if op.left.None? {
        return false;
      }
      current.operators := current.operators + [op];
      current.kind := SerialMaterialize;
      current.SetSource(LocalQueueSource);
      ok := AddLeftAndRight(op, current);
    }

    /** The fragment tree of one plan; the root sends its rows to the result. */
    method BuildPlan(op: PhysicalOperator) returns (result: Option<Fragment>)
      modifies this
      ensures result == if Accepts(op) then Some(FragmentOf(op, ResultSink, old(nextId))) else None
      ensures Accepts(op) ==> nextId == old(nextId) + Count(op)
    {
      var root := new PlanFragment(nextId, ResultSink);
      nextId := nextId + 1;
      var ok := BuildFragments(op, root);
      if !ok {
        return None;
      }
      assert root.operators == PipelineOf(op).operators;
      assert root.children == FragmentsOf(PipelineOf(op).feeds, old(nextId) + 1);
      // The fallback for a root without a source is never needed.
      assert root.source.Some?;
      result := Some(root.Snapshot());
    }

    /** The fragments of several plans, each behind the one before; the result is the last plan's root. */
    method BuildFragment(ops: seq<PhysicalOperator>) returns (ok: bool, result: Option<Fragment>)
      modifies this
      ensures ok <==> AcceptsAll(ops)
      ensures ok ==> result == Chained(ops, old(nextId)) && nextId == old(nextId) + CountAll(ops)
    {
      result := None;
      ghost var done: seq<PhysicalOperator> := [];
      ghost var id := nextId;
      for i := 0 to |ops|
        invariant done == ops[..i] && ChainedSoFar(done, result, id)
      {
        ok, result := BuildNext(ops[i], result, done, id);
        if !ok {
          RefusedAmong(done, ops[i], ops);
          return;
        }
        done := done + [ops[i]];
      }
      assert done == ops;
      ok := true;
    }

    /** The plans `done` are chained. */
    ghost predicate ChainedSoFar(done: seq<PhysicalOperator>, result: Option<Fragment>, id: nat)
      reads this
    {
      AcceptsAll(done) && result == Chained(done, id) && nextId == id + CountAll(done)
    }

    method BuildNext(op: PhysicalOperator, before: Option<Fragment>, ghost done: seq<PhysicalOperator>, ghost id: nat)
      returns (ok: bool, result: Option<Fragment>)
      requires ChainedSoFar(done, before, id)
      modifies this
      ensures ok == Accepts(op)
      ensures ok ==> ChainedSoFar(done + [op], result, id)
    {
      AcceptsLast(done, op);
      ChainedOneMore(done, op, id);
      var next := BuildPlan(op);
      if next.None? {
        return false, None;
      }
      return true, Some(Behind(next.value, before));
    }
  }
}
