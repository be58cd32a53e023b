/**
 src/expression/expression_transformer.cpp: cutting a condition at its outermost ANDs (or ORs)
 with a breadth-first worklist, and joining conditions with a left fold.
 */
module ExpressionTransformer {
  import opened Sequences
  import opened Wrappers

  datatype ConjunctionType = And | Or

  /** A conjunction of two conditions, or any other expression. */
  datatype Expression = Conjunction(kind: ConjunctionType, left: Expression, right: Expression) | Other(id: nat)

  /** Is the expression split further at this delimiter? */
  predicate Splits(e: Expression, delimiter: ConjunctionType) {
    e.Conjunction? && e.kind == delimiter
  }

  // ----- the worklist -----

  ghost function Size(e: Expression): nat {
    match e
    case Conjunction(_, l, r) => 1 + Size(l) + Size(r)
    case Other(_) => 1
  }

  ghost function QueueSize(queue: seq<Expression>): nat {
    if queue == [] then 0 else Size(queue[0]) + QueueSize(queue[1..])
  }

  lemma {:induction false} QueueSizeConcat(a: seq<Expression>, b: seq<Expression>)
    ensures QueueSize(a + b) == QueueSize(a) + QueueSize(b)
  {
    if a == [] {
      assert a + b == b;
    } else {
      assert (a + b)[1..] == a[1..] + b;
      QueueSizeConcat(a[1..], b);
    }
  }

  lemma PushTwo(queue: seq<Expression>, e: Expression)
    requires e.Conjunction?
    ensures QueueSize(queue + [e.left, e.right]) == QueueSize(queue) + Size(e) - 1
  {
    QueueSizeConcat(queue, [e.left, e.right]);
    assert [e.left, e.right][1..] == [e.right];
    assert [e.right][1..] == [];
    assert QueueSize([e.right]) == Size(e.right) + QueueSize([e.right][1..]);
  }

  /** The pieces the worklist still emits. */
  ghost function Emitted(queue: seq<Expression>, delimiter: ConjunctionType): seq<Expression>
    decreases QueueSize(queue)
  {
    if queue == [] then []
    else if Splits(queue[0], delimiter) then
      PushTwo(queue[1..], queue[0]);
      Emitted(queue[1..] + [queue[0].left, queue[0].right], delimiter)
    else [queue[0]] + Emitted(queue[1..], delimiter)
  }

  /** `SplitExpressionByDelimiter`; every round makes the queued expressions smaller. */
  method Split(e: Expression, delimiter: ConjunctionType) returns (result: seq<Expression>)
    ensures result == Emitted([e], delimiter)
  {
    result := [];
    var queue := [e];
    while queue != []
      invariant result + Emitted(queue, delimiter) == Emitted([e], delimiter)
      decreases QueueSize(queue)
    {
      var front := queue[0];
      queue := queue[1..];
      ghost var rest := queue;
      if front.Conjunction? && front.kind == delimiter {
        queue := queue + [front.left];
        queue := queue + [front.right];
        PushTwo(rest, front);
        assert queue == rest + [front.left, front.right];
      } else {
        result := result + [front];
      }
    }
  }

  /** `ComposeExpressionWithDelimiter`: nothing for no expressions. */
  method ComposeAll(es: seq<Expression>, delimiter: ConjunctionType) returns (result: Option<Expression>)
    ensures result == if es == [] then None else Some(Compose(es, delimiter))
  {
    if |es| == 0 {
      return None;
    }
    var r := es[0];
    for i := 1 to |es|
      invariant r == Compose(es[..i], delimiter)
    {
      assert es[..i + 1][..i] == es[..i];
      r := Conjunction(delimiter, r, es[i]);
    }
    assert es[..|es|] == es;
    return Some(r);
  }

  ghost function Compose(es: seq<Expression>, delimiter: ConjunctionType): Expression
    requires es != []
  {
    if |es| == 1 then es[0]
    else Conjunction(delimiter, Compose(es[..|es| - 1], delimiter), es[|es| - 1])
  }

  // ----- the pieces are the leaves -----

  /** The recursive meaning of splitting. */
  ghost function Leaves(e: Expression, delimiter: ConjunctionType): seq<Expression> {
    if Splits(e, delimiter) then Leaves(e.left, delimiter) + Leaves(e.right, delimiter) else [e]
  }

  ghost function QueueLeaves(queue: seq<Expression>, delimiter: ConjunctionType): multiset<Expression> {
    if queue == [] then multiset{} else multiset(Leaves(queue[0], delimiter)) + QueueLeaves(queue[1..], delimiter)
  }

  lemma {:induction false} QueueLeavesConcat(a: seq<Expression>, b: seq<Expression>, delimiter: ConjunctionType)
    ensures QueueLeaves(a + b, delimiter) == QueueLeaves(a, delimiter) + QueueLeaves(b, delimiter)
  {
    if a == [] {
      assert a + b == b;
    } else {
      assert (a + b)[1..] == a[1..] + b;
      QueueLeavesConcat(a[1..], b, delimiter);
    }
  }

  lemma TwoLeaves(l: Expression, r: Expression, delimiter: ConjunctionType)
    ensures QueueLeaves([l, r], delimiter) == multiset(Leaves(l, delimiter)) + multiset(Leaves(r, delimiter))
  {
    assert [l, r][1..] == [r];
    assert [r][1..] == [];
    assert QueueLeaves([r], delimiter) == multiset(Leaves(r, delimiter)) + QueueLeaves([r][1..], delimiter);
  }

  lemma PushedLeaves(rest: seq<Expression>, e: Expression, delimiter: ConjunctionType)
    requires Splits(e, delimiter)
    ensures QueueLeaves(rest + [e.left, e.right], delimiter)
      == multiset(Leaves(e, delimiter)) + QueueLeaves(rest, delimiter)
  {
    QueueLeavesConcat(rest, [e.left, e.right], delimiter);
    TwoLeaves(e.left, e.right, delimiter);
  }

  lemma {:induction false} EmittedLeaves(queue: seq<Expression>, delimiter: ConjunctionType)
    ensures multiset(Emitted(queue, delimiter)) == QueueLeaves(queue, delimiter)
    ensures forall i | 0 <= i < |Emitted(queue, delimiter)| :: !Splits(Emitted(queue, delimiter)[i], delimiter)
    decreases QueueSize(queue)
  {
    if queue != [] {
      var e, rest := queue[0], queue[1..];
      if Splits(e, delimiter) {
        PushTwo(rest, e);
        EmittedLeaves(rest + [e.left, e.right], delimiter);
        PushedLeaves(rest, e, delimiter);
      } else {
        EmittedLeaves(rest, delimiter);
      }
    }
  }

  /** The pieces of a split are, as a bag, the leaves of the expression, and none can be split again. */
  lemma SplitGivesLeaves(e: Expression, delimiter: ConjunctionType)
    ensures multiset(Emitted([e], delimiter)) == multiset(Leaves(e, delimiter))
    ensures Emitted([e], delimiter) != []
    ensures forall i | 0 <= i < |Emitted([e], delimiter)| :: !Splits(Emitted([e], delimiter)[i], delimiter)
  {
    EmittedLeaves([e], delimiter);
    assert [e][1..] == [];
    LeavesExist(e, delimiter);
    assert |multiset(Emitted([e], delimiter))| == |Emitted([e], delimiter)|;
  }

  lemma {:induction false} LeavesExist(e: Expression, delimiter: ConjunctionType)
    ensures |Leaves(e, delimiter)| >= 1
  {
    if Splits(e, delimiter) {
      LeavesExist(e.left, delimiter);
    }
  }

  // ----- meaning -----

  datatype Truth = False | Unknown | True

  /** AND is the smaller and OR the larger of two truth values. */
  function Join(kind: ConjunctionType, x: Truth, y: Truth): Truth {
    match kind
    case And => if x.False? || y.False? then False else if x.True? && y.True? then True else Unknown
    case Or => if x.True? || y.True? then True else if x.False? && y.False? then False else Unknown
  }

  /** The neutral element. */
  function Unit(kind: ConjunctionType): Truth {
    if kind.And? then True else False
  }

  function Eval(e: Expression, row: nat -> Truth): Truth {
    match e
    case Conjunction(kind, l, r) => Join(kind, Eval(l, row), Eval(r, row))
    case Other(id) => row(id)
  }

  /** All of the given conditions joined. */
  ghost function JoinAll(kind: ConjunctionType, es: seq<Expression>, row: nat -> Truth): Truth {
    if es == [] then Unit(kind) else Join(kind, Eval(es[0], row), JoinAll(kind, es[1..], row))
  }

  lemma {:induction false} JoinConcat(kind: ConjunctionType, a: seq<Expression>, b: seq<Expression>, row: nat -> Truth)
    ensures JoinAll(kind, a + b, row) == Join(kind, JoinAll(kind, a, row), JoinAll(kind, b, row))
  {
    if a == [] {
      assert a + b == b;
    } else {
      assert (a + b)[1..] == a[1..] + b;
      JoinConcat(kind, a[1..], b, row);
    }
  }

  lemma {:induction false} LeavesMean(e: Expression, kind: ConjunctionType, row: nat -> Truth)
    ensures JoinAll(kind, Leaves(e, kind), row) == Eval(e, row)
  {
    if Splits(e, kind) {
      LeavesMean(e.left, kind, row);
      LeavesMean(e.right, kind, row);
      JoinConcat(kind, Leaves(e.left, kind), Leaves(e.right, kind), row);
    } else {
      assert [e][1..] == [];
    }
  }

  /** Joining does not depend on the order. */
  lemma {:induction false} JoinPermutation(kind: ConjunctionType, a: seq<Expression>, b: seq<Expression>,
                                           row: nat -> Truth)
    requires multiset(a) == multiset(b)
    ensures JoinAll(kind, a, row) == JoinAll(kind, b, row)
    decreases |a|
  {
    if a == [] {
      assert |b| == |multiset(b)|;
    } else {
      var i := PlaceOfFirst(a, b);
      JoinPermutation(kind, a[1..], b[..i] + b[i + 1..], row);
      JoinWithout(kind, b, i, row);
    }
  }

  lemma JoinWithout(kind: ConjunctionType, es: seq<Expression>, i: nat, row: nat -> Truth)
    requires i < |es|
    ensures JoinAll(kind, es, row) == Join(kind, Eval(es[i], row), JoinAll(kind, es[..i] + es[i + 1..], row))
  {
    JoinConcat(kind, es[..i], es[i + 1..], row);
    JoinConcat(kind, es[..i], es[i..], row);
    assert es == es[..i] + es[i..];
  }

  lemma {:induction false} ComposeMeans(es: seq<Expression>, kind: ConjunctionType, row: nat -> Truth)
    requires es != []
    ensures Eval(Compose(es, kind), row) == JoinAll(kind, es, row)
    decreases |es|
  {
    var n := |es| - 1;
    if n > 0 {
      ComposeMeans(es[..n], kind, row);
      JoinConcat(kind, es[..n], [es[n]], row);
      assert es == es[..n] + [es[n]];
      assert [es[n]][1..] == [];
    } else {
      assert es[1..] == [];
    }
  }

  /** Splitting a condition and joining the pieces again keeps its value on every row, including Unknown. */
  lemma SplitComposeKeepsMeaning(e: Expression, kind: ConjunctionType, row: nat -> Truth)
    ensures Emitted([e], kind) != []
    ensures Eval(Compose(Emitted([e], kind), kind), row) == Eval(e, row)
  {
    SplitGivesLeaves(e, kind);
    ComposeMeans(Emitted([e], kind), kind, row);
    JoinPermutation(kind, Emitted([e], kind), Leaves(e, kind), row);
    LeavesMean(e, kind, row);
  }

  // ----- splitting a composition -----

  ghost function Reverse(es: seq<Expression>): seq<Expression> {
    if es == [] then [] else [es[|es| - 1]] + Reverse(es[..|es| - 1])
  }

  /** A queue that holds the fold of all but the last expression and then the last one. */
  lemma {:induction false} EmittedFold(es: seq<Expression>, kind: ConjunctionType)
    requires |es| >= 2 && forall i | 0 <= i < |es| :: !Splits(es[i], kind)
    ensures Emitted([Compose(es[..|es| - 1], kind), es[|es| - 1]], kind) == Reverse(es[2..]) + [es[0], es[1]]
    decreases |es|
  {
    var n := |es| - 1;
    var queue := [Compose(es[..n], kind), es[n]];
    if n == 1 {
      assert queue == [es[0], es[1]];
      assert queue[1..] == [es[1]] && [es[1]][1..] == [];
      assert Emitted([es[1]], kind) == [es[1]] + Emitted([es[1]][1..], kind);
      assert es[2..] == [];
    } else {
      var front := es[..n];
      var c := Conjunction(kind, Compose(front[..n - 1], kind), front[n - 1]);
      assert Compose(front, kind) == c;
      PushTwo([es[n]], c);
      assert queue[1..] + [c.left, c.right] == [es[n], c.left, c.right];
      assert [es[n], c.left, c.right][1..] == [c.left, c.right];
      EmittedFold(front, kind);
      assert es[2..][..|es[2..]| - 1] == front[2..];
    }
  }

  /**
   Splitting the left fold of x0, ..., x(n-1), none of them splittable, returns x(n-1), ..., x2, x0, x1:
   a permutation of the input, but not its order.
   */
  lemma SplitOfCompose(es: seq<Expression>, kind: ConjunctionType)
    requires |es| >= 2 && forall i | 0 <= i < |es| :: !Splits(es[i], kind)
    ensures Emitted([Compose(es, kind)], kind) == Reverse(es[2..]) + [es[0], es[1]]
  {
    var n := |es| - 1;
    var c := Conjunction(kind, Compose(es[..n], kind), es[n]);
    assert Compose(es, kind) == c;
    PushTwo([], c);
    assert [c][1..] + [c.left, c.right] == [c.left, c.right];
    EmittedFold(es, kind);
  }
}
