/**
 Physical operator trees. The operator types of src/executor/physical_operator_type.cppm are
 grouped as src/executor/fragment_builder.cpp treats them; `Explain` is left out.
 */
module PhysicalPlan {
  import opened Wrappers

  /** Statements that run as one operator without input. */
  datatype StatementType =
    | Command | Alter | CreateTable | CreateCollection | CreateDatabase | CreateView
    | DropTable | DropIndex | DropCollection | DropDatabase | DropView
    | PreparedPlan | Show | Flush | Optimize | Insert | Import | Export | Match
    | CreateIndexPrepare

  /** Operators that set the fragment type before their input is built. */
  datatype StreamingType = ParallelAggregate | Filter | Hash | Limit

  /** Operators that set the fragment type after their input is built. */
  datatype BlockingType = Aggregate | Top | Update | Delete | Sort

  /** Operators that read what other fragments wrote to a queue. */
  datatype MergeType =
    | MergeAggregate | MergeHash | MergeLimit | MergeTop | MergeSort
    | MergeMatchTensor | MergeMatchSparse | MergeKnn

  /** Steps of index creation that read exactly one other fragment. */
  datatype IndexStepType = CreateIndexDo | CreateIndexFinish | CompactIndexDo

  datatype SearchScanType = MatchSparseScan | MatchTensorScan | KnnScan

  datatype TableScanType = TableScan | IndexScan

  /** Types the builder refuses. */
  datatype RefusedType =
    | Invalid | UnionAll | Intersect | Except | DummyScan | JoinHash | JoinNestedLoop | JoinMerge | JoinIndex
    | CrossProduct | MergeParallelAggregate | Sink | Source

  datatype OperatorType =
    | Statement(statement: StatementType)
    | Compact
    | Search(search: SearchScanType)
    | Scan(scan: TableScanType)
    | Streaming(streaming: StreamingType)
    | Blocking(blocking: BlockingType)
    | Projection
    | Fusion
    | Merge(merge: MergeType)
    | IndexStep(step: IndexStepType)
    | CompactIndexPrepare
    | CompactFinish
    | Refused(refused: RefusedType)

  /** `others` are the further children that only a Fusion has. */
  datatype PhysicalOperator = PhysicalOperator(
    kind: OperatorType, id: nat, taskletCount: nat,
    left: Option<PhysicalOperator>, right: Option<PhysicalOperator>, others: seq<PhysicalOperator>)

  datatype FragmentType = SerialMaterialize | ParallelMaterialize | ParallelStream
  datatype SourceType = TableSource | LocalQueueSource | EmptySource
  datatype SinkType = LocalQueueSink | ResultSink

  /** A finished fragment with its child fragments. */
  datatype Fragment = Fragment(
    id: nat, operators: seq<PhysicalOperator>, kind: FragmentType,
    source: Option<SourceType>, sink: SinkType, children: seq<Fragment>)

  // ----- what each operator asks for -----

  function AsSeq<T>(o: Option<T>): seq<T> {
    if o.Some? then [o.value] else []
  }

  /** A Fusion that works on the output of another Fusion in the same fragment. */
  predicate ChainedFusion(op: PhysicalOperator) {
    op.kind.Fusion? && op.left.Some? && op.left.value.kind.Fusion?
  }

  /** Does the operator share its fragment with its input? */
  predicate Pipelined(op: PhysicalOperator) {
    op.left.Some? && (op.kind.Streaming? || op.kind.Blocking? || op.kind.Projection? || ChainedFusion(op))
  }

  /** The children that become fragments of their own when the operator ends its pipeline. */
  function CutBelow(op: PhysicalOperator): seq<PhysicalOperator> {
    match op.kind
    case Fusion => AsSeq(op.left) + AsSeq(op.right) + op.others
    case Merge(_) | CompactFinish => AsSeq(op.left) + AsSeq(op.right)
    case IndexStep(_) | CompactIndexPrepare => AsSeq(op.left)
    case _ => []
  }

  /** Does the operator have the children it needs and none it must not have? */
  predicate ShapeOk(op: PhysicalOperator) {
    match op.kind
    case Statement(_) | Compact | Search(_) | Scan(_) => op.left.None? && op.right.None?
    case Streaming(_) | Blocking(_) | Merge(_) | CompactFinish => op.left.Some?
    case Projection => true
    case Fusion => op.left.Some? && (ChainedFusion(op) ==> op.right.None?)
    case IndexStep(_) => op.left.Some? && op.right.None?
    case CompactIndexPrepare => op.right.None?
    case Refused(_) => false
  }

  /** The fragment type an operator sets. */
  function OwnType(op: PhysicalOperator): FragmentType {
    match op.kind
    case Blocking(b) => if b.Aggregate? || b.Top? then ParallelMaterialize else SerialMaterialize
    case Streaming(_) | Compact => ParallelMaterialize
    case IndexStep(s) => if s.CreateIndexFinish? then SerialMaterialize else ParallelMaterialize
    case Search(_) => if op.taskletCount == 1 then SerialMaterialize else ParallelMaterialize
    case Scan(_) => ParallelStream
    case Projection => if op.left.Some? then ParallelStream else SerialMaterialize
    case _ => SerialMaterialize
  }

  /** The source set by an operator that ends its pipeline. */
  function OwnSource(op: PhysicalOperator): SourceType {
    match op.kind
    case Search(_) | Scan(_) => TableSource
    case Fusion | Merge(_) | IndexStep(_) | CompactFinish => LocalQueueSource
    case _ => EmptySource
  }
}
