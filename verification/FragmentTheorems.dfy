/** What the fragment tree of every accepted plan looks like. */
module FragmentTheorems {
  import opened Wrappers
  import opened PhysicalPlan
  import opened FragmentBuilder

  // ----- every operator lands in exactly one fragment -----

  function Children(op: PhysicalOperator): seq<PhysicalOperator> {
    AsSeq(op.left) + AsSeq(op.right) + if op.kind.Fusion? then op.others else []
  }

  lemma ChildrenSmaller(op: PhysicalOperator)
    ensures SizeAll(Children(op)) < Size(op)
  {
    SizeConcat(AsSeq(op.left), AsSeq(op.right));
    SizeConcat(AsSeq(op.left) + AsSeq(op.right), if op.kind.Fusion? then op.others else []);
  }

  /** All operators of a plan, each before its children. */
  ghost function Preorder(op: PhysicalOperator): seq<PhysicalOperator>
    decreases Size(op), 0
  {
    ChildrenSmaller(op);
    [op] + PreorderAll(Children(op))
  }

  ghost function PreorderAll(ops: seq<PhysicalOperator>): seq<PhysicalOperator>
    decreases SizeAll(ops), 1 + |ops|
  {
    if ops == [] then [] else Preorder(ops[0]) + PreorderAll(ops[1..])
  }

  /** All operators of a fragment tree: a fragment's own, then those of its children. */
  ghost function Flatten(f: Fragment): seq<PhysicalOperator> {
    f.operators + FlattenAll(f.children)
  }

  ghost function FlattenAll(fs: seq<Fragment>): seq<PhysicalOperator> {
    if fs == [] then [] else Flatten(fs[0]) + FlattenAll(fs[1..])
  }

  /** The children the builder looks at. */
  function Visited(op: PhysicalOperator): seq<PhysicalOperator> {
    if Pipelined(op) then [op.left.value] else CutBelow(op)
  }

  lemma VisitedSmaller(op: PhysicalOperator)
    ensures SizeAll(Visited(op)) < Size(op)
  {
    CutBelowSmaller(op);
    if Pipelined(op) {
      assert [op.left.value][1..] == [];
    }
  }

  ghost function VisitOrder(op: PhysicalOperator): seq<PhysicalOperator>
    decreases Size(op), 0
  {
    VisitedSmaller(op);
    [op] + VisitOrderAll(Visited(op))
  }

  ghost function VisitOrderAll(ops: seq<PhysicalOperator>): seq<PhysicalOperator>
    decreases SizeAll(ops), 1 + |ops|
  {
    if ops == [] then [] else VisitOrder(ops[0]) + VisitOrderAll(ops[1..])
  }

  lemma {:induction false} FlattenVisits(op: PhysicalOperator, sink: SinkType, id: nat)
    ensures Flatten(FragmentOf(op, sink, id)) == VisitOrder(op)
    decreases Size(op), 0
  {
    VisitedSmaller(op);
    PipelineVisits(op, id + 1);
  }

  lemma {:induction false} PipelineVisits(op: PhysicalOperator, id: nat)
    ensures PipelineOf(op).operators + FlattenAll(FragmentsOf(PipelineOf(op).feeds, id)) == VisitOrder(op)
    decreases Size(op), 0
  {
    VisitedSmaller(op);
    if Pipelined(op) {
      var left := op.left.value;
      PipelineVisits(left, id);
      assert VisitOrderAll([left]) == VisitOrder(left) + VisitOrderAll([left][1..]) == VisitOrder(left);
    } else {
      FlattenAllVisits(CutBelow(op), id);
    }
  }

  lemma {:induction false} FlattenAllVisits(ops: seq<PhysicalOperator>, id: nat)
    ensures FlattenAll(FragmentsOf(ops, id)) == VisitOrderAll(ops)
    decreases SizeAll(ops), 1 + |ops|
  {
    if ops != [] {
      PipelineVisits(ops[0], id + 1);
      FlattenAllVisits(ops[1..], id + Count(ops[0]));
      assert FragmentsOf(ops, id)[1..] == FragmentsOf(ops[1..], id + Count(ops[0]));
    }
  }

  /** No operator of the plan has a child that the builder ignores. */
  ghost predicate Complete(op: PhysicalOperator)
    decreases Size(op), 0
  {
    VisitedSmaller(op);
    Visited(op) == Children(op) && CompleteAll(Visited(op))
  }

  ghost predicate CompleteAll(ops: seq<PhysicalOperator>)
    decreases SizeAll(ops), 1 + |ops|
  {
    ops == [] || (Complete(ops[0]) && CompleteAll(ops[1..]))
  }

  /** The visited children are the first of the children. */
  lemma VisitedIsPrefix(op: PhysicalOperator)
    ensures Visited(op) <= Children(op)
  {
  }

  lemma {:induction false} PreorderConcat(a: seq<PhysicalOperator>, b: seq<PhysicalOperator>)
    ensures PreorderAll(a + b) == PreorderAll(a) + PreorderAll(b)
    decreases |a|
  {
    if a == [] {
      assert a + b == b;
    } else {
      assert (a + b)[1..] == a[1..] + b;
      PreorderConcat(a[1..], b);
    }
  }

  /**
   The visited operators are as many as all operators exactly when no child is ignored, and then they are the
   same.
   */
  lemma {:induction false} VisitsAll(op: PhysicalOperator)
    ensures |VisitOrder(op)| <= |Preorder(op)|
    ensures |VisitOrder(op)| == |Preorder(op)| <==> Complete(op)
    ensures Complete(op) ==> VisitOrder(op) == Preorder(op)
    decreases Size(op), 0
  {
    VisitedSmaller(op);
    ChildrenSmaller(op);
    VisitedIsPrefix(op);
    var seen := Visited(op);
    var ignored := Children(op)[|seen|..];
    assert Children(op) == seen + ignored;
    PreorderConcat(seen, ignored);
    VisitsAllOf(seen);
    if ignored != [] {
      assert |PreorderAll(ignored)| >= |Preorder(ignored[0])| >= 1;
    }
  }

  lemma {:induction false} VisitsAllOf(ops: seq<PhysicalOperator>)
    ensures |VisitOrderAll(ops)| <= |PreorderAll(ops)|
    ensures |VisitOrderAll(ops)| == |PreorderAll(ops)| <==> CompleteAll(ops)
    ensures CompleteAll(ops) ==> VisitOrderAll(ops) == PreorderAll(ops)
    decreases SizeAll(ops), 1 + |ops|
  {
    if ops != [] {
      VisitsAll(ops[0]);
      VisitsAllOf(ops[1..]);
    }
  }

  /**
   The fragment tree, read as operators and then children, is the preorder of the plan
   exactly when no operator has a child that the builder ignores.
   */
  lemma FlattenIsPreorder(op: PhysicalOperator, sink: SinkType, id: nat)
    ensures Flatten(FragmentOf(op, sink, id)) == Preorder(op) <==> Complete(op)
  {
    FlattenVisits(op, sink, id);
    VisitsAll(op);
  }

  /** An accepted plan with an ignored child: a Filter with a right input that is never built. */
  lemma IgnoredChild()
    ensures var scan := PhysicalOperator(Scan(TableScan), 1, 2, None, None, []);
      var filter := PhysicalOperator(Streaming(Filter), 0, 2, Some(scan), Some(scan), []);
      Accepts(filter) && !Complete(filter)
  {
    var scan := PhysicalOperator(Scan(TableScan), 1, 2, None, None, []);
    var filter := PhysicalOperator(Streaming(Filter), 0, 2, Some(scan), Some(scan), []);
    assert Accepts(scan);
    assert |Visited(filter)| == 1 && |Children(filter)| == 2;
  }

  // ----- fragment numbers -----

  ghost function Ids(f: Fragment): seq<nat> {
    [f.id] + IdsAll(f.children)
  }

  ghost function IdsAll(fs: seq<Fragment>): seq<nat> {
    if fs == [] then [] else Ids(fs[0]) + IdsAll(fs[1..])
  }

  ghost function Range(from: nat, n: nat): seq<nat> {
    seq(n, i requires 0 <= i < n => from + i)
  }

  /** Fragments are numbered consecutively, each before its children. */
  lemma {:induction false} NumberedInPreorder(op: PhysicalOperator, sink: SinkType, id: nat)
    ensures Ids(FragmentOf(op, sink, id)) == Range(id, Count(op))
    decreases Size(op), 0
  {
    NumberedAll(PipelineOf(op).feeds, id + 1);
    assert [id] + Range(id + 1, Count(op) - 1) == Range(id, Count(op));
  }

  lemma {:induction false} NumberedAll(ops: seq<PhysicalOperator>, id: nat)
    ensures IdsAll(FragmentsOf(ops, id)) == Range(id, CountAll(ops))
    decreases SizeAll(ops), 1 + |ops|
  {
    if ops != [] {
      NumberedInPreorder(ops[0], LocalQueueSink, id);
      NumberedAll(ops[1..], id + Count(ops[0]));
      assert FragmentsOf(ops, id)[1..] == FragmentsOf(ops[1..], id + Count(ops[0]));
      assert Range(id, Count(ops[0])) + Range(id + Count(ops[0]), CountAll(ops[1..])) == Range(id, CountAll(ops));
    }
  }

  // ----- sources, sinks and types -----

  /**
   The type the fragment of these operators must end up with: the first blocking operator decides, otherwise
   the last one.
   */
  ghost function DecidedType(ops: seq<PhysicalOperator>): FragmentType
    requires ops != []
  {
    if |ops| == 1 || ops[0].kind.Blocking? then OwnType(ops[0]) else DecidedType(ops[1..])
  }

  ghost predicate FragmentOk(f: Fragment, sink: SinkType) {
    && f.sink == sink
    && f.operators != []
    && f.kind == DecidedType(f.operators)
    && f.source.Some?
    && var last := f.operators[|f.operators| - 1];
    && (last.kind.CompactIndexPrepare? ==> f.source == Some(EmptySource))
    && (!last.kind.CompactIndexPrepare? ==> (f.children != [] <==> f.source == Some(LocalQueueSource)))
  }

  ghost predicate TreeOk(f: Fragment, sink: SinkType) {
    FragmentOk(f, sink) && TreesOk(f.children)
  }

  ghost predicate TreesOk(fs: seq<Fragment>) {
    fs == [] || (TreeOk(fs[0], LocalQueueSink) && TreesOk(fs[1..]))
  }

  lemma {:induction false} PipelineType(op: PhysicalOperator)
    ensures var p := PipelineOf(op); p.operators != [] && p.kind == DecidedType(p.operators)
  {
    if Pipelined(op) {
      PipelineType(op.left.value);
      var p := PipelineOf(op.left.value);
      assert ([op] + p.operators)[1..] == p.operators;
    }
  }

  /** The operator that ends a pipeline. */
  lemma LastOperator(op: PhysicalOperator)
    requires !Pipelined(op) && Accepts(op)
    ensures AcceptsAll(CutBelow(op))
    ensures op.kind.CompactIndexPrepare? ==> OwnSource(op) == EmptySource
    ensures !op.kind.CompactIndexPrepare? ==> (CutBelow(op) != [] <==> OwnSource(op) == LocalQueueSource)
  {
  }

  lemma {:induction false} PipelineSource(op: PhysicalOperator)
    requires Accepts(op)
    ensures var p := PipelineOf(op);
      && p.operators != []
      && AcceptsAll(p.feeds)
      && var last := p.operators[|p.operators| - 1];
      && (last.kind.CompactIndexPrepare? ==> p.source == EmptySource)
      && (!last.kind.CompactIndexPrepare? ==> (p.feeds != [] <==> p.source == LocalQueueSource))
  {
    if Pipelined(op) {
      PipelineSource(op.left.value);
      var p := PipelineOf(op.left.value);
      assert PipelineOf(op).operators == [op] + p.operators;
      assert ([op] + p.operators)[|p.operators|] == p.operators[|p.operators| - 1];
    } else {
      LastOperator(op);
    }
  }

  /** The facts about one pipeline that do not depend on fragment numbers. */
  lemma PipelineFacts(op: PhysicalOperator)
    requires Accepts(op)
    ensures var p := PipelineOf(op);
      && p.operators != []
      && p.kind == DecidedType(p.operators)
      && AcceptsAll(p.feeds)
      && var last := p.operators[|p.operators| - 1];
      && (last.kind.CompactIndexPrepare? ==> p.source == EmptySource)
      && (!last.kind.CompactIndexPrepare? ==> (p.feeds != [] <==> p.source == LocalQueueSource))
  {
    PipelineType(op);
    PipelineSource(op);
  }

  /**
   In the tree of every accepted plan only the root sends to the result, every fragment has a
   source, it has children exactly when that source is the queue (an index preparation inside
   a compaction aside), and its type is decided by its first blocking operator or else its last operator.
   */
  lemma {:induction false} TreeIsOk(op: PhysicalOperator, sink: SinkType, id: nat)
    requires Accepts(op)
    ensures TreeOk(FragmentOf(op, sink, id), sink)
    decreases Size(op), 0
  {
    PipelineFacts(op);
    TreesAreOk(PipelineOf(op).feeds, id + 1);
  }

  lemma {:induction false} TreesAreOk(ops: seq<PhysicalOperator>, id: nat)
    requires AcceptsAll(ops)
    ensures TreesOk(FragmentsOf(ops, id))
    ensures FragmentsOf(ops, id) == [] <==> ops == []
    decreases SizeAll(ops), 1 + |ops|
  {
    if ops != [] {
      TreeIsOk(ops[0], LocalQueueSink, id);
      TreesAreOk(ops[1..], id + Count(ops[0]));
      assert FragmentsOf(ops, id)[1..] == FragmentsOf(ops[1..], id + Count(ops[0]));
    }
  }

  // ----- several plans -----

  /**
   Every way down from `f` reaches `root`: as a fragment starts after its children, `f` and all between start
   after `root`.
   */
  ghost predicate Waits(f: Fragment, root: Fragment) {
    f == root || (f.children != [] && AllWait(f.children, root))
  }

  ghost predicate AllWait(fs: seq<Fragment>, root: Fragment) {
    fs == [] || (Waits(fs[0], root) && AllWait(fs[1..], root))
  }

  lemma {:induction false} GraftWaits(f: Fragment, root: Fragment)
    ensures Waits(Graft(f, root), root)
    decreases f
  {
    if f.children == [] {
      assert [root][1..] == [];
    } else {
      GraftAllWait(f.children, root);
    }
  }

  lemma {:induction false} GraftAllWait(fs: seq<Fragment>, root: Fragment)
    ensures AllWait(GraftAll(fs, root), root)
    decreases fs
  {
    if fs != [] {
      GraftWaits(fs[0], root);
      GraftAllWait(fs[1..], root);
      assert GraftAll(fs, root)[1..] == GraftAll(fs[1..], root);
    }
  }

  lemma {:induction false} WaitsThrough(f: Fragment, middle: Fragment, root: Fragment)
    requires Waits(f, middle) && Waits(middle, root)
    ensures Waits(f, root)
    decreases f
  {
    if f != middle {
      AllWaitThrough(f.children, middle, root);
    }
  }

  lemma {:induction false} AllWaitThrough(fs: seq<Fragment>, middle: Fragment, root: Fragment)
    requires AllWait(fs, middle) && Waits(middle, root)
    ensures AllWait(fs, root)
    decreases fs
  {
    if fs != [] {
      WaitsThrough(fs[0], middle, root);
      AllWaitThrough(fs[1..], middle, root);
    }
  }

  lemma LastPlanWaits(ops: seq<PhysicalOperator>, op: PhysicalOperator, id: nat)
    requires ops != []
    ensures Chained(ops, id).Some? && Chained(ops + [op], id).Some?
    ensures Waits(Chained(ops + [op], id).value, Chained(ops, id).value)
  {
    ChainedOneMore(ops, op, id);
    GraftWaits(FragmentOf(op, ResultSink, id + CountAll(ops)), Chained(ops, id).value);
  }

  lemma WaitsForItself(f: Fragment)
    ensures Waits(f, f)
  {
  }

  /** The fragments of plans run one after the other: those of a later plan wait for the root of every earlier one. */
  lemma {:induction false} PlansRunInOrder(ops: seq<PhysicalOperator>, id: nat, k: nat)
    requires k < |ops|
    ensures Chained(ops, id).Some? && Chained(ops[..k + 1], id).Some?
    ensures Waits(Chained(ops, id).value, Chained(ops[..k + 1], id).value)
    decreases |ops|
  {
    var n := |ops| - 1;
    if k == n {
      assert ops[..k + 1] == ops;
      WaitsForItself(Chained(ops, id).value);
    } else {
      assert ops[..n][..k + 1] == ops[..k + 1] && ops == ops[..n] + [ops[n]];
      PlansRunInOrder(ops[..n], id, k);
      LastPlanWaits(ops[..n], ops[n], id);
      WaitsThrough(Chained(ops, id).value, Chained(ops[..n], id).value, Chained(ops[..k + 1], id).value);
    }
  }

  /** Cutting the earlier plan off again. */
  function Cut(f: Fragment, root: Fragment): Fragment {
    f.(children := if f.children == [root] then [] else CutAll(f.children, root))
  }

  function CutAll(fs: seq<Fragment>, root: Fragment): (r: seq<Fragment>)
    ensures |r| == |fs|
  {
    if fs == [] then [] else [Cut(fs[0], root)] + CutAll(fs[1..], root)
  }

  /** Without the grafted root, the tree is what it was. */
  lemma {:induction false} CutGraft(f: Fragment, root: Fragment)
    requires root.id !in Ids(f)
    ensures Cut(Graft(f, root), root) == f
    decreases f
  {
    if f.children != [] {
      CutGraftAll(f.children, root);
      var g := Graft(f, root);
      assert g.children[0].id == f.children[0].id;
      assert f.children[0].id in IdsAll(f.children);
      assert g.children != [root];
    }
  }

  lemma {:induction false} CutGraftAll(fs: seq<Fragment>, root: Fragment)
    requires root.id !in IdsAll(fs)
    ensures CutAll(GraftAll(fs, root), root) == fs
    decreases fs
  {
    if fs != [] {
      CutGraft(fs[0], root);
      CutGraftAll(fs[1..], root);
      assert GraftAll(fs, root)[1..] == GraftAll(fs[1..], root);
    }
  }

  lemma RootNumber(ops: seq<PhysicalOperator>, id: nat)
    requires ops != []
    ensures Chained(ops, id).Some? && Chained(ops, id).value.id < id + CountAll(ops)
  {
    var n := |ops| - 1;
    assert ops == ops[..n] + [ops[n]];
    AcceptsLast(ops[..n], ops[n]);
  }

  /**
   Chaining changes nothing else: with the plans before it cut off, the tree of every plan is the one the builder
   makes for this plan alone.
   */
  lemma ChainedPlans(ops: seq<PhysicalOperator>, id: nat, k: nat)
    requires 0 < k < |ops|
    ensures Chained(ops[..k], id).Some? && Chained(ops[..k + 1], id).Some?
    ensures Cut(Chained(ops[..k + 1], id).value, Chained(ops[..k], id).value)
      == FragmentOf(ops[k], ResultSink, id + CountAll(ops[..k]))
  {
    var root := Chained(ops[..k], id);
    var next := FragmentOf(ops[k], ResultSink, id + CountAll(ops[..k]));
    assert ops[..k + 1] == ops[..k] + [ops[k]];
    ChainedOneMore(ops[..k], ops[k], id);
    RootNumber(ops[..k], id);
    NumberedInPreorder(ops[k], ResultSink, id + CountAll(ops[..k]));
    CutGraft(next, root.value);
  }
}
