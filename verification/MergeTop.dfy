/**
 src/executor/operator/physical_merge_top.cpp: the sorted rows received so far and a newly
 received sorted batch are merged, at most `limit` rows are kept, and the kept rows are written
 back over the old blocks from the last block to the first.
 */
module MergeTop {
  import opened Ranking
  import opened DataBlocks

  // ----- the merge of two sorted sequences -----

  predicate TakesFirst<T>(le: (T, T) -> bool, a: seq<T>, b: seq<T>, i: nat, j: nat)
    requires i <= |a| && j <= |b|
  {
    i < |a| && (j == |b| || le(a[i], b[j]))
  }

  /** The next `n` rows of the merge when `i` rows of `a` and `j` rows of `b` are used up. */
  function MergeRows<T>(le: (T, T) -> bool, a: seq<T>, b: seq<T>, i: nat, j: nat, n: nat): (r: seq<T>)
    requires i <= |a| && j <= |b|
    ensures |r| == Min(n, |a| - i + |b| - j)
    decreases n
  {
    if n == 0 || (i == |a| && j == |b|) then []
    else if TakesFirst(le, a, b, i, j) then [a[i]] + MergeRows(le, a, b, i + 1, j, n - 1)
    else [b[j]] + MergeRows(le, a, b, i, j + 1, n - 1)
  }

  /** The merge of `a[i..]` and `b[j..]` down to `i'` and `j'`: `m` holds what it took, in order, below what it left. */
  ghost predicate MergeSplit<T>(le: (T, T) -> bool, a: seq<T>, b: seq<T>, i: nat, j: nat, m: seq<T>, i': nat, j': nat) {
    && i <= i' <= |a| && j <= j' <= |b|
    && i' - i + j' - j == |m|
    && multiset(m) == multiset(a[i..i']) + multiset(b[j..j'])
    && Sorted(le, m)
    && Below(le, m, a[i'..])
    && Below(le, m, b[j'..])
  }

  /** A row in front of rows that all come from `a[i..]` and `b[j..]`. */
  lemma HeadBelow<T(!new)>(le: (T, T) -> bool, x: T, r: seq<T>, a: seq<T>, b: seq<T>)
    requires Below(le, [x], a) && Below(le, [x], b)
    requires forall y | y in r :: y in a || y in b
    ensures Below(le, [x], r)
  {
    forall i, k | 0 <= i < 1 && 0 <= k < |r| ensures le([x][i], r[k]) {
      assert r[k] in a || r[k] in b;
      if r[k] in a {
        var p :| 0 <= p < |a| && a[p] == r[k];
        assert le([x][0], a[p]);
      } else {
        var p :| 0 <= p < |b| && b[p] == r[k];
        assert le([x][0], b[p]);
      }
    }
  }

  lemma {:induction false} MergedFrom<T(!new)>(le: (T, T) -> bool, a: seq<T>, b: seq<T>, i: nat, j: nat, n: nat)
    requires i <= |a| && j <= |b|
    ensures forall y | y in MergeRows(le, a, b, i, j, n) :: y in a[i..] || y in b[j..]
    decreases n
  {
    if n == 0 || (i == |a| && j == |b|) {
    } else if TakesFirst(le, a, b, i, j) {
      MergedFrom(le, a, b, i + 1, j, n - 1);
      assert a[i..] == [a[i]] + a[i + 1..];
    } else {
      MergedFrom(le, a, b, i, j + 1, n - 1);
      assert b[j..] == [b[j]] + b[j + 1..];
    }
  }

  /** The row the merge takes next may come before everything still to come. */
  lemma NextIsLeast<T(!new)>(le: (T, T) -> bool, a: seq<T>, b: seq<T>, i: nat, j: nat)
    requires TotalPreorder(le) && Sorted(le, a) && Sorted(le, b)
    requires i <= |a| && j <= |b| && (i < |a| || j < |b|)
    ensures TakesFirst(le, a, b, i, j) ==> Below(le, [a[i]], a[i + 1..]) && Below(le, [a[i]], b[j..])
    ensures !TakesFirst(le, a, b, i, j) ==> j < |b| && Below(le, [b[j]], a[i..]) && Below(le, [b[j]], b[j + 1..])
  {
  }

  /** Putting the least row in front of a sorted sequence keeps it sorted and below the same rows. */
  lemma PrependLeast<T(!new)>(le: (T, T) -> bool, x: T, r: seq<T>, rest: seq<T>)
    requires Sorted(le, r) && Below(le, [x], r) && Below(le, r, rest) && Below(le, [x], rest)
    ensures Sorted(le, [x] + r) && Below(le, [x] + r, rest)
  {
    var s := [x] + r;
    forall p, q | 0 <= p < q < |s| ensures le(s[p], s[q]) {
      assert s[q] == r[q - 1];
      if p == 0 {
        assert le([x][0], r[q - 1]);
      } else {
        assert s[p] == r[p - 1];
      }
    }
    forall p, q | 0 <= p < |s| && 0 <= q < |rest| ensures le(s[p], rest[q]) {
      if p == 0 {
        assert le([x][0], rest[q]);
      } else {
        assert s[p] == r[p - 1];
      }
    }
  }

  lemma BelowSuffix<T>(le: (T, T) -> bool, a: seq<T>, b: seq<T>, k: nat, k': nat)
    requires k <= k' <= |b| && Below(le, a, b[k..])
    ensures Below(le, a, b[k'..])
  {
    forall p, q | 0 <= p < |a| && 0 <= q < |b[k'..]| ensures le(a[p], b[k'..][q]) {
      assert b[k'..][q] == b[k..][q + k' - k];
    }
  }

  lemma SplitTakesFirst<T(!new)>(le: (T, T) -> bool, a: seq<T>, b: seq<T>, i: nat, j: nat, n: nat, i': nat, j': nat)
    requires TotalPreorder(le) && Sorted(le, a) && Sorted(le, b) && i < |a| && j <= |b| && n > 0
    requires TakesFirst(le, a, b, i, j) && MergeSplit(le, a, b, i + 1, j, MergeRows(le, a, b, i + 1, j, n - 1), i', j')
    ensures MergeSplit(le, a, b, i, j, MergeRows(le, a, b, i, j, n), i', j')
  {
    var r := MergeRows(le, a, b, i + 1, j, n - 1);
    assert MergeRows(le, a, b, i, j, n) == [a[i]] + r;
    NextIsLeast(le, a, b, i, j);
    MergedFrom(le, a, b, i + 1, j, n - 1);
    HeadBelow(le, a[i], r, a[i + 1..], b[j..]);
    BelowSuffix(le, [a[i]], a, i + 1, i');
    BelowSuffix(le, [a[i]], b, j, j');
    PrependLeast(le, a[i], r, a[i'..]);
    PrependLeast(le, a[i], r, b[j'..]);
    assert a[i..i'] == [a[i]] + a[i + 1..i'];
  }

  lemma SplitTakesSecond<T(!new)>(le: (T, T) -> bool, a: seq<T>, b: seq<T>, i: nat, j: nat, n: nat, i': nat, j': nat)
    requires TotalPreorder(le) && Sorted(le, a) && Sorted(le, b) && i <= |a| && j < |b| && n > 0
    requires !TakesFirst(le, a, b, i, j) && MergeSplit(le, a, b, i, j + 1, MergeRows(le, a, b, i, j + 1, n - 1), i', j')
    ensures MergeSplit(le, a, b, i, j, MergeRows(le, a, b, i, j, n), i', j')
  {
    var r := MergeRows(le, a, b, i, j + 1, n - 1);
    assert MergeRows(le, a, b, i, j, n) == [b[j]] + r;
    NextIsLeast(le, a, b, i, j);
    MergedFrom(le, a, b, i, j + 1, n - 1);
    HeadBelow(le, b[j], r, a[i..], b[j + 1..]);
    BelowSuffix(le, [b[j]], a, i, i');
    BelowSuffix(le, [b[j]], b, j + 1, j');
    PrependLeast(le, b[j], r, a[i'..]);
    PrependLeast(le, b[j], r, b[j'..]);
    assert b[j..j'] == [b[j]] + b[j + 1..j'];
  }

  lemma SplitNothing<T(!new)>(le: (T, T) -> bool, a: seq<T>, b: seq<T>, i: nat, j: nat, n: nat)
    requires i <= |a| && j <= |b| && (n == 0 || (i == |a| && j == |b|))
    ensures MergeSplit(le, a, b, i, j, MergeRows(le, a, b, i, j, n), i, j)
  {
    assert MergeRows(le, a, b, i, j, n) == [];
    assert a[i..i] == [] && b[j..j] == [];
  }

  lemma {:induction false} MergeSplits<T(!new)>(le: (T, T) -> bool, a: seq<T>, b: seq<T>, i: nat, j: nat, n: nat)
      returns (i': nat, j': nat)
    requires TotalPreorder(le) && Sorted(le, a) && Sorted(le, b) && i <= |a| && j <= |b|
    ensures MergeSplit(le, a, b, i, j, MergeRows(le, a, b, i, j, n), i', j')
    decreases n, 1
  {
    if n == 0 || (i == |a| && j == |b|) {
      i', j' := i, j;
      SplitNothing(le, a, b, i, j, n);
    } else if TakesFirst(le, a, b, i, j) {
      i', j' := SplitFirst(le, a, b, i, j, n);
    } else {
      i', j' := SplitSecond(le, a, b, i, j, n);
    }
  }

  lemma {:induction false} SplitFirst<T(!new)>(le: (T, T) -> bool, a: seq<T>, b: seq<T>, i: nat, j: nat, n: nat)
      returns (i': nat, j': nat)
    requires TotalPreorder(le) && Sorted(le, a) && Sorted(le, b) && i < |a| && j <= |b|
    requires n > 0 && TakesFirst(le, a, b, i, j)
    ensures MergeSplit(le, a, b, i, j, MergeRows(le, a, b, i, j, n), i', j')
    decreases n, 0
  {
    i', j' := MergeSplits(le, a, b, i + 1, j, n - 1);
    SplitTakesFirst(le, a, b, i, j, n, i', j');
  }

  lemma {:induction false} SplitSecond<T(!new)>(le: (T, T) -> bool, a: seq<T>, b: seq<T>, i: nat, j: nat, n: nat)
      returns (i': nat, j': nat)
    requires TotalPreorder(le) && Sorted(le, a) && Sorted(le, b) && i <= |a| && j < |b|
    requires n > 0 && !TakesFirst(le, a, b, i, j)
    ensures MergeSplit(le, a, b, i, j, MergeRows(le, a, b, i, j, n), i', j')
    decreases n, 0
  {
    i', j' := MergeSplits(le, a, b, i, j + 1, n - 1);
    SplitTakesSecond(le, a, b, i, j, n, i', j');
  }

  /** Rows left behind by a full selection come after everything the merge keeps. */
  lemma BelowRest<T(!new)>(le: (T, T) -> bool, m: seq<T>, a: seq<T>, rest: seq<T>, i': nat)
    requires TotalPreorder(le) && Below(le, a, rest) && i' <= |a| && Below(le, m, a[i'..])
    requires rest != [] ==> i' < |a| || (forall y | y in m :: y in a)
    ensures Below(le, m, rest)
  {
    forall p, q | 0 <= p < |m| && 0 <= q < |rest| ensures le(m[p], rest[q]) {
      if i' < |a| {
        assert le(m[p], a[i'..][0]);
        assert le(a[i'], rest[q]);
      } else {
        assert m[p] in a;
        var k :| 0 <= k < |a| && a[k] == m[p];
        assert le(a[k], rest[q]);
      }
    }
  }

  /**
   Merging two first-`k` selections, cut at `k` rows, is a first-`k` selection of all the rows
   behind the two.
   */
  lemma MergeIsTop<T(!new)>(le: (T, T) -> bool, a: seq<T>, restA: seq<T>, b: seq<T>, restB: seq<T>, k: nat)
      returns (rest: seq<T>)
    requires TotalPreorder(le) && TopOf(le, a, restA, k) && TopOf(le, b, restB, k)
    ensures TopOf(le, MergeRows(le, a, b, 0, 0, Min(k, |a| + |b|)), rest, k)
    ensures multiset(MergeRows(le, a, b, 0, 0, Min(k, |a| + |b|))) + multiset(rest)
         == multiset(a) + multiset(restA) + (multiset(b) + multiset(restB))
  {
    var n := Min(k, |a| + |b|);
    var m := MergeRows(le, a, b, 0, 0, n);
    var i', j' := MergeSplits(le, a, b, 0, 0, n);
    rest := a[i'..] + b[j'..] + restA + restB;
    MergeRest(le, a, restA, b, restB, k, i', j');
    MergeBag(m, a, restA, b, restB, i', j');
  }

  /** What a merge keeps and leaves is what it was given. */
  lemma MergeBag<T>(m: seq<T>, a: seq<T>, restA: seq<T>, b: seq<T>, restB: seq<T>, i': nat, j': nat)
    requires i' <= |a| && j' <= |b| && multiset(m) == multiset(a[0..i']) + multiset(b[0..j'])
    ensures multiset(m) + multiset(a[i'..] + b[j'..] + restA + restB)
         == multiset(a) + multiset(restA) + (multiset(b) + multiset(restB))
  {
    assert a == a[0..i'] + a[i'..];
    assert b == b[0..j'] + b[j'..];
  }

  lemma MergeRest<T(!new)>(le: (T, T) -> bool, a: seq<T>, restA: seq<T>, b: seq<T>, restB: seq<T>, k: nat, i': nat,
                           j': nat)
    requires TotalPreorder(le) && TopOf(le, a, restA, k) && TopOf(le, b, restB, k)
    requires MergeSplit(le, a, b, 0, 0, MergeRows(le, a, b, 0, 0, Min(k, |a| + |b|)), i', j')
    ensures TopOf(le, MergeRows(le, a, b, 0, 0, Min(k, |a| + |b|)), a[i'..] + b[j'..] + restA + restB, k)
  {
    var m := MergeRows(le, a, b, 0, 0, Min(k, |a| + |b|));
    if restA != [] && i' == |a| {
      OnlyFrom(m, a, b, i', j');
    }
    if restB != [] && j' == |b| {
      OnlyFrom(m, b, a, j', i');
    }
    BelowRest(le, m, a, restA, i');
    BelowRest(le, m, b, restB, j');
    BelowConcat(le, m, a[i'..], b[j'..]);
    BelowConcat(le, m, a[i'..] + b[j'..], restA);
    BelowConcat(le, m, a[i'..] + b[j'..] + restA, restB);
  }

  /** A merge that used up a full selection took nothing from the other side. */
  lemma OnlyFrom<T(!new)>(m: seq<T>, a: seq<T>, b: seq<T>, i': nat, j': nat)
    requires i' == |a| && j' == 0 <= |b|
    requires multiset(m) == multiset(a[0..i']) + multiset(b[0..j'])
    ensures forall y | y in m :: y in a
  {
    assert a[0..i'] == a;
    forall y | y in m ensures y in a {
      assert y in multiset(m);
      assert y in multiset(a);
    }
  }

  lemma BelowConcat<T>(le: (T, T) -> bool, m: seq<T>, a: seq<T>, b: seq<T>)
    requires Below(le, m, a) && Below(le, m, b)
    ensures Below(le, m, a + b)
  {
  }

  // ----- positions inside blocks -----

  /** `VectorBlockRawIndex`: the block and offset of a row, and how many rows are left from there. */
  datatype RawIndex = RawIndex(left: nat, block: nat, offset: nat) {
    function Next(): RawIndex {
      if left == 0 then this
      else if offset + 1 == CAPACITY then RawIndex(left - 1, block + 1, 0)
      else RawIndex(left - 1, block, offset + 1)
    }
  }

  /** The position of row `i` of `n` rows whose first block has number `base`. */
  function IndexOf(n: nat, base: nat, i: nat): RawIndex
    requires i <= n
  {
    RawIndex(n - i, base + i / CAPACITY, i % CAPACITY)
  }

  lemma NextIndex(n: nat, base: nat, i: nat)
    requires i < n
    ensures IndexOf(n, base, i).Next() == IndexOf(n, base, i + 1)
  {
  }

  /**
   Position `t` of the merge comes from row `g` of the old rows, with `g <= t`, or from a row
   of the received batch, whose blocks are numbered after the old ones.
   */
  ghost predicate Comes<T>(id: RawIndex, t: nat, row: T, a: seq<T>, b: seq<T>) {
    || (exists g: nat :: g < |a| && g <= t && id == IndexOf(|a|, 0, g) && a[g] == row)
    || (exists g: nat :: g < |b| && id == IndexOf(|b|, BlockCount(|a|), g) && b[g] == row)
  }

  lemma ComesFrom<T>(a: seq<T>, b: seq<T>, i: nat, j: nat, t: nat)
    requires i <= t
    ensures i < |a| ==> Comes(IndexOf(|a|, 0, i), t, a[i], a, b)
    ensures j < |b| ==> Comes(IndexOf(|b|, BlockCount(|a|), j), t, b[j], a, b)
  {
  }

  /** After `t` rows of the merge, `i` old and `j` received rows are taken. */
  ghost predicate MergeAt<T>(le: (T, T) -> bool, a: seq<T>, b: seq<T>, i: nat, j: nat, all: seq<T>, t: nat) {
    && i <= |a| && j <= |b| && i + j == t <= |all| <= |a| + |b|
    && all[t..] == MergeRows(le, a, b, i, j, |all| - t)
  }

  lemma MergeStarts<T>(le: (T, T) -> bool, a: seq<T>, b: seq<T>, n: nat)
    requires n <= |a| + |b|
    ensures |MergeRows(le, a, b, 0, 0, n)| == n && MergeAt(le, a, b, 0, 0, MergeRows(le, a, b, 0, 0, n), 0)
  {
  }

  lemma MergeUnfolds<T>(le: (T, T) -> bool, a: seq<T>, b: seq<T>, i: nat, j: nat, all: seq<T>, t: nat)
    requires MergeAt(le, a, b, i, j, all, t) && t < |all|
    ensures if TakesFirst(le, a, b, i, j)
      then i < |a| && all[t] == a[i] && MergeAt(le, a, b, i + 1, j, all, t + 1)
      else j < |b| && all[t] == b[j] && MergeAt(le, a, b, i, j + 1, all, t + 1)
  {
    assert all[t] == all[t..][0] && all[t + 1..] == all[t..][1..];
  }

  /** The first `t` indices stand for the first `t` rows of the merge. */
  ghost predicate AllCome<T>(ids: seq<RawIndex>, t: nat, all: seq<T>, a: seq<T>, b: seq<T>) {
    |ids| == t <= |all| && forall k: nat | k < t :: Comes(ids[k], k, all[k], a, b)
  }

  lemma OneMoreComes<T>(ids: seq<RawIndex>, id: RawIndex, t: nat, all: seq<T>, a: seq<T>, b: seq<T>)
    requires AllCome(ids, t, all, a, b) && t < |all| && Comes(id, t, all[t], a, b)
    ensures AllCome(ids + [id], t + 1, all, a, b)
  {
  }

  /** Chooses the next rows of the merge by their positions. */
  method MergeIds<T(!new)>(le: (T, T) -> bool, middle: seq<seq<T>>, middleCount: nat, input: seq<seq<T>>,
                           inputCount: nat,
                           n: nat, ghost a: seq<T>, ghost b: seq<T>) returns (ids: seq<RawIndex>)
    requires Packed(middle, a) && middleCount == |a| && Packed(input, b) && inputCount == |b|
    requires n <= |a| + |b|
    ensures |ids| == n
    ensures forall t: nat | t < n :: Comes(ids[t], t, MergeRows(le, a, b, 0, 0, n)[t], a, b)
  {
    ids := [];
    var middleId, inputId := RawIndex(middleCount, 0, 0), RawIndex(inputCount, |middle|, 0);
    ghost var i: nat, j: nat := 0, 0;
    ghost var all := MergeRows(le, a, b, 0, 0, n);
    MergeStarts(le, a, b, n);
    for total := 0 to n
      invariant MergeAt(le, a, b, i, j, all, total)
      invariant middleId == IndexOf(|a|, 0, i) && inputId == IndexOf(|b|, |middle|, j)
      invariant AllCome(ids, total, all, a, b)
    {
      var id;
      id, middleId, inputId, i, j := NextId(le, middle, middleId, input, inputId, a, b, i, j, all, total);
      OneMoreComes(ids, id, total, all, a, b);
      ids := ids + [id];
    }
  }

  /** One round of the merge: the better of the two next rows. */
  method NextId<T(!new)>(le: (T, T) -> bool, middle: seq<seq<T>>, middleId0: RawIndex, input: seq<seq<T>>,
                         inputId0: RawIndex, ghost a: seq<T>, ghost b: seq<T>, ghost i0: nat, ghost j0: nat,
                         ghost all: seq<T>, ghost t: nat)
    returns (id: RawIndex, middleId: RawIndex, inputId: RawIndex, ghost i: nat, ghost j: nat)
    requires Packed(middle, a) && Packed(input, b) && MergeAt(le, a, b, i0, j0, all, t) && t < |all|
    requires middleId0 == IndexOf(|a|, 0, i0) && inputId0 == IndexOf(|b|, |middle|, j0)
    ensures MergeAt(le, a, b, i, j, all, t + 1)
    ensures middleId == IndexOf(|a|, 0, i) && inputId == IndexOf(|b|, |middle|, j)
    ensures Comes(id, t, all[t], a, b)
  {
    var first := ChooseMiddle(le, middle, middleId0, input, inputId0, a, b, i0, j0);
    MergeUnfolds(le, a, b, i0, j0, all, t);
    ComesFrom(a, b, i0, j0, t);
    id, middleId, inputId, i, j := middleId0, middleId0, inputId0, i0, j0;
    if first {
      NextIndex(|a|, 0, i0);
      middleId, i := middleId0.Next(), i0 + 1;
    } else {
      NextIndex(|b|, |middle|, j0);
      id, inputId, j := inputId0, inputId0.Next(), j0 + 1;
    }
  }

  method ChooseMiddle<T(!new)>(le: (T, T) -> bool, middle: seq<seq<T>>, middleId: RawIndex, input: seq<seq<T>>,
                               inputId: RawIndex,
                               ghost a: seq<T>, ghost b: seq<T>, ghost i: nat, ghost j: nat) returns (first: bool)
    requires Packed(middle, a) && Packed(input, b) && i <= |a| && j <= |b|
    requires middleId == IndexOf(|a|, 0, i) && inputId == IndexOf(|b|, |middle|, j)
    ensures first == TakesFirst(le, a, b, i, j)
  {
    if middleId.left == 0 {
      first := false;
    } else if inputId.left == 0 {
      first := true;
    } else {
      PackedRow(middle, a, i);
      PackedRow(input, b, j);
      first := le(middle[middleId.block][middleId.offset], input[inputId.block - |middle|][inputId.offset]);
    }
  }

  // ----- writing the merged rows back -----

  /** The old blocks up to number `last` are still as they were. */
  ghost predicate Untouched<T>(blocks: seq<seq<T>>, middle: seq<seq<T>>, last: int) {
    |middle| <= |blocks| && forall b: nat | b < |middle| && b <= last :: blocks[b] == middle[b]
  }

  /** Collects the rows of positions `start` to `end`, which lie in blocks not overwritten yet. */
  method CollectRows<T(!new)>(ids: seq<RawIndex>, start: nat, end: nat, blocks: seq<seq<T>>,
                              ghost middle: seq<seq<T>>, middleBlocks: nat,
                              input: seq<seq<T>>, ghost rows: seq<T>, ghost a: seq<T>, ghost b: seq<T>)
    returns (r: seq<T>)
    requires Packed(middle, a) && Packed(input, b) && middleBlocks == |middle|
    requires start <= end <= |ids| == |rows| && end <= start + CAPACITY && start % CAPACITY == 0
    requires forall t: nat | t < |ids| :: Comes(ids[t], t, rows[t], a, b)
    requires Untouched(blocks, middle, start / CAPACITY)
    ensures r == rows[start..end]
  {
    r := [];
    for id := start to end
      invariant r == rows[start..id]
    {
      assert Comes(ids[id], id, rows[id], a, b);
      var row := FetchRow(ids[id], id, blocks, middle, middleBlocks, input, rows[id], a, b);
      r := r + [row];
    }
  }

  method FetchRow<T(!new)>(id: RawIndex, ghost t: nat, blocks: seq<seq<T>>, ghost middle: seq<seq<T>>,
                           middleBlocks: nat,
                           input: seq<seq<T>>, ghost row: T, ghost a: seq<T>, ghost b: seq<T>) returns (r: T)
    requires Packed(middle, a) && Packed(input, b) && middleBlocks == |middle|
    requires Comes(id, t, row, a, b) && Untouched(blocks, middle, t / CAPACITY)
    ensures r == row
  {
    if id.block < middleBlocks {
      ghost var g: nat :| g < |a| && g <= t && id == IndexOf(|a|, 0, g) && a[g] == row;
      PackedRow(middle, a, g);
      r := blocks[id.block][id.offset];
    } else {
      ghost var g: nat :| g < |b| && id == IndexOf(|b|, BlockCount(|a|), g) && b[g] == row;
      PackedRow(input, b, g);
      r := input[id.block - middleBlocks][id.offset];
    }
  }

  /** Every position of the merge has a source, and there are at least as many positions as old rows. */
  ghost predicate Sourced<T>(ids: seq<RawIndex>, rows: seq<T>, a: seq<T>, b: seq<T>) {
    |a| <= |rows| == |ids| && forall t: nat | t < |ids| :: Comes(ids[t], t, rows[t], a, b)
  }

  /** Block `k` of the result, read while no old block up to `k` is overwritten. */
  method BuildBlock<T(!new)>(ids: seq<RawIndex>, k: nat, blocks: seq<seq<T>>, ghost middle: seq<seq<T>>,
                             middleBlocks: nat,
                             input: seq<seq<T>>, ghost rows: seq<T>, ghost a: seq<T>, ghost b: seq<T>)
    returns (r: seq<T>)
    requires Packed(middle, a) && Packed(input, b) && middleBlocks == |middle| && Sourced(ids, rows, a, b)
    requires k < BlockCount(|ids|) && Untouched(blocks, middle, k)
    ensures k * CAPACITY <= |rows| && r == Chunk(rows, k)
  {
    r := CollectRows(ids, k * CAPACITY, Min(|ids|, k * CAPACITY + CAPACITY), blocks, middle, middleBlocks, input,
                     rows, a, b);
  }

  ghost predicate Written<T>(blocks: seq<seq<T>>, rows: seq<T>, from: nat, to: nat) {
    to <= |blocks| && forall c: nat | from <= c < to :: c * CAPACITY <= |rows| && blocks[c] == Chunk(rows, c)
  }

  /** The blocks that did not exist before. */
  method AppendBlocks<T(!new)>(ids: seq<RawIndex>, middle: seq<seq<T>>, input: seq<seq<T>>,
                               ghost rows: seq<T>, ghost a: seq<T>, ghost b: seq<T>) returns (blocks: seq<seq<T>>)
    requires Packed(middle, a) && Packed(input, b) && Sourced(ids, rows, a, b)
    ensures |blocks| == BlockCount(|ids|) && Untouched(blocks, middle, |middle|)
    ensures Written(blocks, rows, |middle|, |blocks|)
  {
    var resultBlocks := BlockCount(|ids|);
    blocks := middle + seq(resultBlocks - |middle|, _ => []);
    for k := |middle| to resultBlocks
      invariant |blocks| == resultBlocks && Untouched(blocks, middle, |middle|)
      invariant Written(blocks, rows, |middle|, k)
    {
      var r := BuildBlock(ids, k, blocks, middle, |middle|, input, rows, a, b);
      blocks := blocks[k := r];
    }
  }

  /**
   Writes the merged rows over the old blocks, from the last to the first: a block is overwritten
   only after every later block is built, and row `t` never needs an old row beyond `t`.
   */
  method WriteBack<T(!new)>(ids: seq<RawIndex>, middle: seq<seq<T>>, input: seq<seq<T>>,
                            ghost rows: seq<T>, ghost a: seq<T>, ghost b: seq<T>) returns (blocks: seq<seq<T>>)
    requires Packed(middle, a) && Packed(input, b) && Sourced(ids, rows, a, b)
    ensures Packed(blocks, rows)
  {
    blocks := AppendBlocks(ids, middle, input, rows, a, b);
    for k := |middle| downto 0
      invariant |blocks| == BlockCount(|ids|) && Untouched(blocks, middle, k - 1)
      invariant Written(blocks, rows, k, |blocks|)
    {
      var r := BuildBlock(ids, k, blocks, middle, |middle|, input, rows, a, b);
      blocks := blocks[k := r];
    }
  }

  // ----- the operator state -----

  /** The rows kept after receiving `b`: the longer side is merged first, so it wins ties. */
  ghost function Combine<T>(le: (T, T) -> bool, a: seq<T>, b: seq<T>, k: nat): seq<T> {
    if a == [] then b
    else if |b| > |a| then MergeRows(le, b, a, 0, 0, Min(k, |a| + |b|))
    else MergeRows(le, a, b, 0, 0, Min(k, |a| + |b|))
  }

  class MergeTopState<T(!new)> {
    const le: (T, T) -> bool
    const limit: nat
    const offset: nat
    var middle: seq<seq<T>>
    var middleCount: nat
    /** The kept rows without their division into blocks. */
    ghost var rows: seq<T>

    ghost predicate Valid()
      reads this
    {
      Packed(middle, rows) && middleCount == |rows|
    }

    constructor (le: (T, T) -> bool, limit: nat, offset: nat)
      ensures Valid() && rows == []
      ensures this.le == le && this.limit == limit && this.offset == offset
    {
      this.le := le;
      this.limit := limit;
      this.offset := offset;
      middle := [];
      middleCount := 0;
      rows := [];
    }

    /**
     Takes in one batch of sorted rows; an empty one is an unrecoverable error. The first batch is kept as it is;
     when the merge starts, neither side may be longer than the limit, or it writes past the blocks it keeps.
     */
    method Execute(received: seq<seq<T>>, ghost batch: seq<T>) returns (ok: bool)
      requires Valid() && Packed(received, batch)
      requires rows == [] || (|rows| <= limit && |batch| <= limit)
      modifies this
      ensures Valid() && (ok <==> batch != [])
      ensures rows == if ok then Combine(le, old(rows), batch, limit) else old(rows)
    {
      PackedRows(received, batch);
      PackedRows(middle, rows);
      if received == [] {
        return false;
      }
      var inputCount := CountRows(received);
      if middle == [] {
        middle, middleCount := received, inputCount;
        rows := batch;
      } else {
        MergeIn(received, inputCount, batch);
      }
      return true;
    }

    /** The longer side is merged in place with the other one. */
    method MergeIn(received: seq<seq<T>>, receivedCount: nat, ghost batch: seq<T>)
      requires Valid() && 0 < |rows| <= limit && Packed(received, batch) && 0 < receivedCount == |batch| <= limit
      modifies this
      ensures Valid() && rows == Combine(le, old(rows), batch, limit)
    {
      var input, inputCount := received, receivedCount;
      ghost var a, b := rows, batch;
      if inputCount > middleCount {
        input, middle := middle, input;
        inputCount, middleCount := middleCount, inputCount;
        a, b := b, a;
      }
      var n := Min(limit, inputCount + middleCount);
      var ids := MergeIds(le, middle, middleCount, input, inputCount, n, a, b);
      rows := MergeRows(le, a, b, 0, 0, n);
      middle := WriteBack(ids, middle, input, rows, a, b);
      middleCount := n;
    }

    /** The output once the input is complete: the kept rows without the first `offset`. */
    method Finish() returns (output: seq<seq<T>>)
      requires Valid()
      ensures Packed(output, Skip(rows, offset))
    {
      output := HandleOutputOffset(middleCount, offset, middle, rows);
    }
  }
}
