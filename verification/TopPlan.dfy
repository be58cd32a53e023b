/**
 ORDER BY ... LIMIT ... OFFSET: the comparison of two rows, the plan that
 src/executor/physical_planner.cpp builds for a logical Top, and the meaning of that plan when it
 runs on any number of tasklets.
 */
module TopPlan {
  import opened Integers
  import opened Wrappers
  import opened Ranking
  import opened DataBlocks
  import opened MergeTop

  // ----- comparing two rows -----

  datatype OrderType = Asc | Desc

  datatype Ordering = Less | Equal | Greater

  function CompareValues(order: OrderType, x: int, y: int): Ordering {
    var (a, b) := if order.Asc? then (x, y) else (y, x);
    if a < b then Less else if a == b then Equal else Greater
  }

  /** The row order from sort expression `i` on: the first difference decides and a full tie prefers the left row. */
  predicate PreferLeftFrom<T>(orders: seq<OrderType>, key: (T, nat) -> int, x: T, y: T, i: nat)
    decreases |orders| - i
  {
    i >= |orders|
    || (match CompareValues(orders[i], key(x, i), key(y, i))
        case Less => true
        case Equal => PreferLeftFrom(orders, key, x, y, i + 1)
        case Greater => false)
  }

  /** `CompareTwoRowAndPreferLeft::Compare`. */
  method Compare<T>(orders: seq<OrderType>, key: (T, nat) -> int, x: T, y: T) returns (preferLeft: bool)
    ensures preferLeft == PreferLeftFrom(orders, key, x, y, 0)
  {
    for i := 0 to |orders|
      invariant PreferLeftFrom(orders, key, x, y, 0) == PreferLeftFrom(orders, key, x, y, i)
    {
      var c := CompareValues(orders[i], key(x, i), key(y, i));
      if c != Equal {
        return c == Less;
      }
    }
    return true;
  }

  lemma {:induction false} PreferLeftTotal<T>(orders: seq<OrderType>, key: (T, nat) -> int, x: T, y: T, i: nat)
    ensures PreferLeftFrom(orders, key, x, y, i) || PreferLeftFrom(orders, key, y, x, i)
    decreases |orders| - i
  {
    if i < |orders| {
      PreferLeftTotal(orders, key, x, y, i + 1);
    }
  }

  lemma {:induction false} PreferLeftTransitive<T>(orders: seq<OrderType>, key: (T, nat) -> int, x: T, y: T, z: T,
                                                   i: nat)
    requires PreferLeftFrom(orders, key, x, y, i) && PreferLeftFrom(orders, key, y, z, i)
    ensures PreferLeftFrom(orders, key, x, z, i)
    decreases |orders| - i
  {
    if i < |orders| && CompareValues(orders[i], key(x, i), key(y, i)) == Equal
       && CompareValues(orders[i], key(y, i), key(z, i)) == Equal {
      PreferLeftTransitive(orders, key, x, y, z, i + 1);
    }
  }

  ghost function RowOrder<T(!new)>(orders: seq<OrderType>, key: (T, nat) -> int): (T, T) -> bool {
    (x: T, y: T) => PreferLeftFrom(orders, key, x, y, 0)
  }

  /** Every list of sort expressions and directions orders all rows. */
  lemma RowOrderIsTotal<T(!new)>(orders: seq<OrderType>, key: (T, nat) -> int)
    ensures TotalPreorder(RowOrder(orders, key))
  {
    var le := RowOrder(orders, key);
    forall x, y ensures le(x, y) || le(y, x) {
      PreferLeftTotal(orders, key, x, y, 0);
    }
    forall x, y, z | le(x, y) && le(y, z) ensures le(x, z) {
      PreferLeftTransitive(orders, key, x, y, z, 0);
    }
  }

  /** Rows that tie agree on every sort expression. */
  lemma {:induction false} TieMeansEqualKeys<T>(orders: seq<OrderType>, key: (T, nat) -> int, x: T, y: T, i: nat)
    requires PreferLeftFrom(orders, key, x, y, i) && PreferLeftFrom(orders, key, y, x, i)
    ensures forall j: nat | i <= j < |orders| :: key(x, j) == key(y, j)
    decreases |orders| - i
  {
    if i < |orders| {
      TieMeansEqualKeys(orders, key, x, y, i + 1);
    }
  }

  // ----- receiving batches -----

  /** The rows that MergeTop keeps after receiving the batches one after the other. */
  ghost function Received<T>(le: (T, T) -> bool, batches: seq<seq<T>>, k: nat): seq<T> {
    if batches == [] then []
    else Combine(le, Received(le, batches[..|batches| - 1], k), batches[|batches| - 1], k)
  }

  /** A sorted batch that fits is a selection of itself. */
  lemma BatchIsTop<T>(le: (T, T) -> bool, b: seq<T>, k: nat)
    requires Sorted(le, b) && |b| <= k
    ensures TopOf(le, b, [], k)
  {
  }

  lemma CombineIsTop<T(!new)>(le: (T, T) -> bool, a: seq<T>, restA: seq<T>, b: seq<T>, k: nat) returns (rest: seq<T>)
    requires TotalPreorder(le) && TopOf(le, a, restA, k) && Sorted(le, b) && |b| <= k
    requires a == [] ==> restA == []
    ensures TopOf(le, Combine(le, a, b, k), rest, k)
    ensures multiset(Combine(le, a, b, k)) + multiset(rest) == multiset(a) + multiset(restA) + multiset(b)
  {
    BatchIsTop(le, b, k);
    if a == [] {
      rest := [];
    } else if |b| > |a| {
      rest := MergeIsTop(le, b, [], a, restA, k);
    } else {
      rest := MergeIsTop(le, a, restA, b, [], k);
    }
  }

  ghost predicate Batches<T>(le: (T, T) -> bool, batches: seq<seq<T>>, k: nat) {
    forall i: nat | i < |batches| :: Sorted(le, batches[i]) && 0 < |batches[i]| <= k
  }

  /** Whatever batches arrive in whatever order, the kept rows are a first-`k` selection of all received rows. */
  lemma {:induction false} ReceivedIsTop<T(!new)>(le: (T, T) -> bool, batches: seq<seq<T>>, k: nat)
    returns (rest: seq<T>)
    requires TotalPreorder(le) && Batches(le, batches, k)
    ensures TopOf(le, Received(le, batches, k), rest, k)
    ensures Received(le, batches, k) == [] ==> rest == []
    ensures multiset(Received(le, batches, k)) + multiset(rest) == multiset(Concat(batches))
    decreases |batches|
  {
    if batches == [] {
      rest := [];
    } else {
      var n := |batches| - 1;
      var before := ReceivedIsTop(le, batches[..n], k);
      var a := Received(le, batches[..n], k);
      assert Sorted(le, batches[n]) && 0 < |batches[n]| <= k;
      rest := CombineIsTop(le, a, before, batches[n], k);
      assert |Combine(le, a, batches[n], k)| > 0;
    }
  }

  // ----- several tasklets -----

  /** What one run of the per-tasklet Top sent on and what it dropped. */
  datatype Part<T> = Part(out: seq<T>, dropped: seq<T>)

  ghost function AllSent<T>(parts: seq<Part<T>>): multiset<T> {
    if parts == [] then multiset{} else AllSent(parts[..|parts| - 1]) + multiset(parts[|parts| - 1].out)
  }

  ghost function AllDropped<T>(parts: seq<Part<T>>): seq<T> {
    if parts == [] then [] else AllDropped(parts[..|parts| - 1]) + parts[|parts| - 1].dropped
  }

  ghost predicate Parts<T>(le: (T, T) -> bool, parts: seq<Part<T>>, k: nat) {
    forall i: nat | i < |parts| :: TopOf(le, parts[i].out, parts[i].dropped, k)
  }

  /** A row dropped by a tasklet comes after everything kept in the end. */
  lemma DroppedStaysOut<T(!new)>(le: (T, T) -> bool, m: seq<T>, rest: seq<T>, out: seq<T>, dropped: seq<T>, k: nat)
    requires TotalPreorder(le) && TopOf(le, m, rest, k) && TopOf(le, out, dropped, k)
    requires multiset(out) <= multiset(m) + multiset(rest)
    ensures Below(le, m, dropped)
  {
    if dropped != [] {
      assert |out| == k;
      if x :| x in multiset(out) && multiset(out)[x] > multiset(m)[x] {
        DroppedBehind(le, m, rest, out, dropped, x);
      } else {
        SameBag(out, m);
        forall p, q | 0 <= p < |m| && 0 <= q < |dropped| ensures le(m[p], dropped[q]) {
          assert m[p] in multiset(out);
          var i :| 0 <= i < |out| && out[i] == m[p];
        }
      }
    }
  }

  /** A bag inside another of no larger size is the same bag. */
  lemma SameBag<T(!new)>(a: seq<T>, b: seq<T>)
    requires forall x :: x in multiset(a) ==> multiset(a)[x] <= multiset(b)[x]
    requires |b| <= |a|
    ensures multiset(a) == multiset(b)
  {
    assert multiset(a) <= multiset(b);
    assert |multiset(b) - multiset(a)| == |multiset(b)| - |multiset(a)| == |b| - |a|;
  }

  /** Row `x` was sent but not kept, so it lies between the kept rows and the dropped ones. */
  lemma DroppedBehind<T(!new)>(le: (T, T) -> bool, m: seq<T>, rest: seq<T>, out: seq<T>, dropped: seq<T>, x: T)
    requires TotalPreorder(le) && Below(le, m, rest) && Below(le, out, dropped)
    requires multiset(out) <= multiset(m) + multiset(rest)
    requires x in multiset(out) && multiset(out)[x] > multiset(m)[x]
    ensures Below(le, m, dropped)
  {
    assert x in multiset(rest);
    var r :| 0 <= r < |rest| && rest[r] == x;
    var i :| 0 <= i < |out| && out[i] == x;
    forall p, q | 0 <= p < |m| && 0 <= q < |dropped| ensures le(m[p], dropped[q]) {
      assert le(m[p], rest[r]) && le(out[i], dropped[q]);
    }
  }

  lemma {:induction false} AllDroppedStayOut<T(!new)>(le: (T, T) -> bool, m: seq<T>, rest: seq<T>,
                                                      parts: seq<Part<T>>, k: nat, n: nat)
    requires TotalPreorder(le) && TopOf(le, m, rest, k) && Parts(le, parts, k) && n <= |parts|
    requires AllSent(parts[..n]) <= multiset(m) + multiset(rest)
    ensures Below(le, m, AllDropped(parts[..n]))
  {
    if n > 0 {
      assert parts[..n][..n - 1] == parts[..n - 1];
      assert multiset(parts[n - 1].out) <= AllSent(parts[..n]);
      AllDroppedStayOut(le, m, rest, parts, k, n - 1);
      assert TopOf(le, parts[n - 1].out, parts[n - 1].dropped, k);
      DroppedStaysOut(le, m, rest, parts[n - 1].out, parts[n - 1].dropped, k);
      BelowConcat(le, m, AllDropped(parts[..n - 1]), parts[n - 1].dropped);
    }
  }

  lemma {:induction false} SomethingDropped<T(!new)>(le: (T, T) -> bool, parts: seq<Part<T>>, k: nat, n: nat)
    requires Parts(le, parts, k) && n <= |parts|
    ensures AllDropped(parts[..n]) != [] ==> |AllSent(parts[..n])| >= k
  {
    if n > 0 {
      assert parts[..n][..n - 1] == parts[..n - 1];
      SomethingDropped(le, parts, k, n - 1);
      assert TopOf(le, parts[n - 1].out, parts[n - 1].dropped, k);
    }
  }

  /**
   Every tasklet keeps at most `k` rows of its share; what they send arrives split into sorted
   batches in any order; then the rows kept by MergeTop are a first-`k` selection of all rows.
   */
  lemma TaskletsAreTop<T(!new)>(le: (T, T) -> bool, parts: seq<Part<T>>, batches: seq<seq<T>>, k: nat)
    returns (rest: seq<T>)
    requires TotalPreorder(le) && Parts(le, parts, k) && Batches(le, batches, k)
    requires multiset(Concat(batches)) == AllSent(parts)
    ensures TopOf(le, Received(le, batches, k), rest, k)
    ensures multiset(Received(le, batches, k)) + multiset(rest) == AllSent(parts) + multiset(AllDropped(parts))
  {
    var m := Received(le, batches, k);
    var r := ReceivedIsTop(le, batches, k);
    rest := r + AllDropped(parts);
    assert parts[..|parts|] == parts;
    AllDroppedStayOut(le, m, r, parts, k, |parts|);
    SomethingDropped(le, parts, k, |parts|);
    BelowConcat(le, m, r, AllDropped(parts));
    if AllDropped(parts) != [] {
      assert |multiset(m) + multiset(r)| == |m| + |r|;
    }
  }

  // ----- the plan -----

  const U32_MAX: int := 0xFFFF_FFFF

  datatype PlanError = LimitOrOffsetSign | OffsetTooLarge | LimitTooLarge

  /** A single Top, or a Top per tasklet under a MergeTop; `limit` counts the skipped rows too. */
  datatype TopPlan = OnlyTop(limit: int, offset: int) | TopThenMerge(childLimit: int, limit: int, offset: int)

  method BuildTop(limit: int, offset: Option<int>, taskletCount: nat) returns (plan: Result<TopPlan, PlanError>)
    requires IsI64(limit) && (offset.Some? ==> IsI64(offset.value))
    ensures plan == TopPlanFor(limit, if offset.Some? then offset.value else 0, taskletCount)
  {
    var mergeOffset := 0;
    var mergeLimit := limit;
    if offset.Some? {
      mergeOffset := offset.value;
      mergeLimit := Wrap64(mergeLimit + mergeOffset);
    }
    if mergeOffset < 0 || mergeLimit <= mergeOffset {
      return Failure(LimitOrOffsetSign);
    }
    if mergeOffset >= U32_MAX {
      return Failure(OffsetTooLarge);
    }
    if mergeLimit >= U32_MAX {
      return Failure(LimitTooLarge);
    }
    if taskletCount <= 1 {
      return Success(OnlyTop(mergeLimit, mergeOffset));
    } else {
      return Success(TopThenMerge(mergeLimit, mergeLimit, mergeOffset));
    }
  }

  /** The outcome in unbounded arithmetic. */
  function TopPlanFor(limit: int, offset: int, taskletCount: nat): Result<TopPlan, PlanError> {
    if offset < 0 || limit <= 0 || limit + offset >= TWO63 then Failure(LimitOrOffsetSign)
    else if offset >= U32_MAX then Failure(OffsetTooLarge)
    else if limit + offset >= U32_MAX then Failure(LimitTooLarge)
    else if taskletCount <= 1 then Success(OnlyTop(limit + offset, offset))
    else Success(TopThenMerge(limit + offset, limit + offset, offset))
  }

  /** A plan is built exactly when the requested window is non-empty and ends below the largest u32. */
  lemma AcceptedExactly(limit: int, offset: int, taskletCount: nat)
    ensures TopPlanFor(limit, offset, taskletCount).Success? <==> 0 <= offset && 1 <= limit && offset + limit < U32_MAX
  {
  }

  /** Skipping `offset` rows of a first-(`limit + offset`) selection leaves the requested window. */
  lemma TopWindow<T(!new)>(le: (T, T) -> bool, out: seq<T>, rest: seq<T>, limit: nat, offset: nat, all: seq<T>)
    requires TotalPreorder(le) && TopOf(le, out, rest, limit + offset)
    requires Sorted(le, all) && multiset(all) == multiset(out) + multiset(rest)
    ensures SameKeys(le, Skip(out, offset), Window(all, offset, limit))
  {
    assert multiset(all) == multiset(out + rest);
    TopIsPrefix(le, out, rest, limit + offset, all);
    var s, w := Skip(out, offset), Window(all, offset, limit);
    forall i | 0 <= i < |s| ensures le(s[i], w[i]) && le(w[i], s[i]) {
      assert s[i] == out[offset + i] && w[i] == all[..|out|][offset + i];
    }
  }

  /**
   The parallel plan means what the logical Top means: for every accepted limit and offset, every
   way to share the rows among any number of tasklets, every way the tasklets break ties, and
   every order in which their blocks arrive, the output has the sort keys of the requested
   window of any sorted arrangement of all rows.
   */
  lemma ParallelTopIsTop<T(!new)>(le: (T, T) -> bool, limit: int, offset: int, taskletCount: nat,
                                  parts: seq<Part<T>>, batches: seq<seq<T>>, all: seq<T>)
    requires TotalPreorder(le)
    requires TopPlanFor(limit, offset, taskletCount).Success? && taskletCount > 1
    requires Parts(le, parts, TopPlanFor(limit, offset, taskletCount).value.childLimit)
    requires Batches(le, batches, TopPlanFor(limit, offset, taskletCount).value.limit)
    requires multiset(Concat(batches)) == AllSent(parts)
    requires Sorted(le, all) && multiset(all) == AllSent(parts) + multiset(AllDropped(parts))
    ensures var plan := TopPlanFor(limit, offset, taskletCount).value;
      SameKeys(le, Skip(Received(le, batches, plan.limit), plan.offset), Window(all, offset, limit))
  {
    var plan := TopPlanFor(limit, offset, taskletCount).value;
    assert plan == TopThenMerge(limit + offset, limit + offset, offset);
    TaskletsWindow(le, limit, offset, parts, batches, all, plan.limit);
  }

  lemma TaskletsWindow<T(!new)>(le: (T, T) -> bool, limit: nat, offset: nat, parts: seq<Part<T>>,
                                batches: seq<seq<T>>, all: seq<T>, k: nat)
    requires TotalPreorder(le) && k == limit + offset
    requires Parts(le, parts, k) && Batches(le, batches, k)
    requires multiset(Concat(batches)) == AllSent(parts)
    requires Sorted(le, all) && multiset(all) == AllSent(parts) + multiset(AllDropped(parts))
    ensures SameKeys(le, Skip(Received(le, batches, k), offset), Window(all, offset, limit))
  {
    var rest := TaskletsAreTop(le, parts, batches, k);
    TopWindow(le, Received(le, batches, k), rest, limit, offset, all);
  }

  /** The serial plan: one Top over all rows, then the offset. */
  lemma SerialTopIsTop<T(!new)>(le: (T, T) -> bool, limit: int, offset: int, taskletCount: nat, part: Part<T>,
                                all: seq<T>)
    requires TotalPreorder(le)
    requires TopPlanFor(limit, offset, taskletCount).Success? && taskletCount <= 1
    requires TopOf(le, part.out, part.dropped, TopPlanFor(limit, offset, taskletCount).value.limit)
    requires Sorted(le, all) && multiset(all) == multiset(part.out) + multiset(part.dropped)
    ensures
      SameKeys(le, Skip(part.out, TopPlanFor(limit, offset, taskletCount).value.offset), Window(all, offset, limit))
  {
    TopWindow(le, part.out, part.dropped, limit, offset, all);
  }

  /** With the comparison the operators use, the same sort keys means equal values of every sort expression. */
  lemma SameKeysAgree<T(!new)>(orders: seq<OrderType>, key: (T, nat) -> int, a: seq<T>, b: seq<T>, i: nat, e: nat)
    requires SameKeys(RowOrder(orders, key), a, b) && i < |a| && e < |orders|
    ensures i < |b| && key(a[i], e) == key(b[i], e)
  {
    TieMeansEqualKeys(orders, key, a[i], b[i], 0);
  }
}
