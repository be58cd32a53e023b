/**
 Late loading of columns, src/executor/physical_operator.cpp: columns are inserted into a block at given places,
 and filled row by row with the stored values that the block's last column, the row ids, points to.
 */
module InputLoad {
  import opened DataBlocks
  import opened Wrappers

  // ----- inserting columns -----

  ghost function Inserted<T>(s: seq<T>, i: nat, x: T): (r: seq<T>)
    requires i <= |s|
    ensures |r| == |s| + 1
  {
    s[..i] + [x] + s[i..]
  }

  /** Every insertion is inside the list or at its end. */
  ghost predicate Insertable(n: nat, indices: seq<nat>) {
    forall k | 0 <= k < |indices| :: indices[k] <= n + k
  }

  /** Every column goes before the last column the block has at that moment. */
  ghost predicate BeforeLast(n: nat, indices: seq<nat>) {
    forall k | 0 <= k < |indices| :: indices[k] < n + k
  }

  ghost predicate Increasing(indices: seq<nat>) {
    forall k, l | 0 <= k < l < |indices| :: indices[k] < indices[l]
  }

  /** The columns `xs` inserted one after the other, each at its index. */
  ghost function InsertAll<T>(s: seq<T>, indices: seq<nat>, xs: seq<T>): (r: seq<T>)
    requires |xs| == |indices| && Insertable(|s|, indices)
    ensures |r| == |s| + |indices|
    decreases |indices|
  {
    if indices == [] then s
    else
      var m := |indices| - 1;
      Inserted(InsertAll(s, indices[..m], xs[..m]), indices[m], xs[m])
  }

  /** Where something at `p` is after an insertion at `i`. */
  ghost function Shifted(p: nat, i: nat): nat {
    if i <= p then p + 1 else p
  }

  /** Where the `k`-th inserted column is in the end: each later insertion at or before it moves it. */
  ghost function FinalPlace(indices: seq<nat>, k: nat): nat
    requires k < |indices|
    decreases |indices|
  {
    var m := |indices| - 1;
    if k == m then indices[m] else Shifted(FinalPlace(indices[..m], k), indices[m])
  }

  /** Where the `p`-th column of the block is in the end. */
  ghost function OriginalPlace(indices: seq<nat>, p: nat): nat
    decreases |indices|
  {
    if indices == [] then p
    else
      var m := |indices| - 1;
      Shifted(OriginalPlace(indices[..m], p), indices[m])
  }

  lemma InsertedAt<T>(s: seq<T>, i: nat, x: T, p: nat)
    requires i <= |s| && p < |s|
    ensures Inserted(s, i, x)[i] == x && Inserted(s, i, x)[Shifted(p, i)] == s[p]
  {
  }

  lemma {:induction false} InsertedPlace<T>(s: seq<T>, indices: seq<nat>, xs: seq<T>, k: nat)
    requires |xs| == |indices| && Insertable(|s|, indices) && k < |indices|
    ensures FinalPlace(indices, k) < |s| + |indices|
    ensures InsertAll(s, indices, xs)[FinalPlace(indices, k)] == xs[k]
    decreases |indices|
  {
    var m := |indices| - 1;
    if k < m {
      InsertedPlace(s, indices[..m], xs[..m], k);
      InsertedAt(InsertAll(s, indices[..m], xs[..m]), indices[m], xs[m], FinalPlace(indices[..m], k));
    }
  }

  lemma {:induction false} KeptPlace<T>(s: seq<T>, indices: seq<nat>, xs: seq<T>, p: nat)
    requires |xs| == |indices| && Insertable(|s|, indices) && p < |s|
    ensures OriginalPlace(indices, p) < |s| + |indices|
    ensures InsertAll(s, indices, xs)[OriginalPlace(indices, p)] == s[p]
    decreases |indices|
  {
    if indices != [] {
      var m := |indices| - 1;
      KeptPlace(s, indices[..m], xs[..m], p);
      InsertedAt(InsertAll(s, indices[..m], xs[..m]), indices[m], xs[m], OriginalPlace(indices[..m], p));
    }
  }

  lemma {:induction false} OrderKept(indices: seq<nat>, p: nat, q: nat)
    requires p < q
    ensures OriginalPlace(indices, p) < OriginalPlace(indices, q)
    decreases |indices|
  {
    if indices != [] {
      OrderKept(indices[..|indices| - 1], p, q);
    }
  }

  lemma {:induction false} PlacesDiffer(indices: seq<nat>, k: nat, p: nat)
    requires k < |indices|
    ensures FinalPlace(indices, k) != OriginalPlace(indices, p)
    decreases |indices|
  {
    if k < |indices| - 1 {
      PlacesDiffer(indices[..|indices| - 1], k, p);
    }
  }

  lemma {:induction false} OwnPlaces(indices: seq<nat>, k: nat, l: nat)
    requires k < l < |indices|
    ensures FinalPlace(indices, k) != FinalPlace(indices, l)
    decreases |indices|
  {
    if l < |indices| - 1 {
      OwnPlaces(indices[..|indices| - 1], k, l);
    }
  }

  /** Column `p` of the block is at its place. */
  ghost predicate KeepsColumn<T>(s: seq<T>, indices: seq<nat>, r: seq<T>, p: nat)
    requires p < |s|
  {
    OriginalPlace(indices, p) < |r| && r[OriginalPlace(indices, p)] == s[p]
  }

  /** Whatever the indices, the block's own columns keep their order around the loaded ones. */
  lemma OthersInOrder<T>(s: seq<T>, indices: seq<nat>, xs: seq<T>)
    requires |xs| == |indices| && Insertable(|s|, indices)
    ensures forall p: nat | p < |s| :: KeepsColumn(s, indices, InsertAll(s, indices, xs), p)
    ensures forall p: nat, q: nat | p < q < |s| :: OriginalPlace(indices, p) < OriginalPlace(indices, q)
    ensures forall k: nat, p: nat | k < |indices| && p < |s| :: FinalPlace(indices, k) != OriginalPlace(indices, p)
  {
    forall p: nat | p < |s| ensures KeepsColumn(s, indices, InsertAll(s, indices, xs), p) {
      KeptPlace(s, indices, xs, p);
    }
    forall p: nat, q: nat | p < q < |s| ensures OriginalPlace(indices, p) < OriginalPlace(indices, q) {
      OrderKept(indices, p, q);
    }
    forall k: nat, p: nat | k < |indices| && p < |s| ensures FinalPlace(indices, k) != OriginalPlace(indices, p) {
      PlacesDiffer(indices, k, p);
    }
  }

  // ----- when every column is where its index says -----

  /** Every loaded column ends up at its own index exactly when the indices are strictly increasing. */
  lemma OwnPlaceExactly(indices: seq<nat>)
    ensures Increasing(indices) <==> forall k | 0 <= k < |indices| :: FinalPlace(indices, k) == indices[k]
  {
    if Increasing(indices) {
      forall k | 0 <= k < |indices| ensures FinalPlace(indices, k) == indices[k] {
        StaysInPlace(indices, k);
      }
    } else {
      var k, l :| 0 <= k < l < |indices| && indices[k] >= indices[l];
      Moved(indices, k, l);
    }
  }

  lemma {:induction false} StaysInPlace(indices: seq<nat>, k: nat)
    requires Increasing(indices) && k < |indices|
    ensures FinalPlace(indices, k) == indices[k]
    decreases |indices|
  {
    var m := |indices| - 1;
    if k < m {
      StaysInPlace(indices[..m], k);
    }
  }

  lemma {:induction false} Moved(indices: seq<nat>, k: nat, l: nat)
    requires k < l < |indices| && indices[l] <= indices[k]
    ensures FinalPlace(indices, k) > indices[k]
    decreases |indices|
  {
    var m := |indices| - 1;
    NotBefore(indices[..m], k);
    if l < m {
      Moved(indices[..m], k, l);
    }
  }

  lemma {:induction false} NotBefore(indices: seq<nat>, k: nat)
    requires k < |indices|
    ensures FinalPlace(indices, k) >= indices[k]
    decreases |indices|
  {
    var m := |indices| - 1;
    if k < m {
      NotBefore(indices[..m], k);
    }
  }

  lemma BeforeLastSplit(n: nat, indices: seq<nat>)
    requires indices != []
    ensures var m := |indices| - 1; BeforeLast(n, indices) <==> BeforeLast(n, indices[..m]) && indices[m] < n + m
  {
    var m := |indices| - 1;
    assert forall k | 0 <= k < m :: indices[..m][k] == indices[k];
  }

  /** The last column stays the last one exactly when every insertion is before the last column. */
  lemma {:induction false} LastStaysExactly(n: nat, indices: seq<nat>)
    requires n > 0 && Insertable(n, indices)
    ensures OriginalPlace(indices, n - 1) < n + |indices|
    ensures OriginalPlace(indices, n - 1) == n + |indices| - 1 <==> BeforeLast(n, indices)
    decreases |indices|
  {
    if indices != [] {
      var m := |indices| - 1;
      LastStaysExactly(n, indices[..m]);
      BeforeLastSplit(n, indices);
    }
  }

  /** An insertion at the end of the block: the column is the last one then, and something new is last ever after. */
  lemma {:induction false} LastIsLoaded(n: nat, indices: seq<nat>) returns (k: nat)
    requires Insertable(n, indices) && !BeforeLast(n, indices)
    ensures k < |indices| && FinalPlace(indices, k) == n + |indices| - 1
    decreases |indices|
  {
    var m := |indices| - 1;
    if indices[m] == n + m {
      k := m;
    } else {
      BeforeLastSplit(n, indices);
      k := LastIsLoaded(n, indices[..m]);
    }
  }

  /**
   If each place of a loaded column is also somebody's index, the indices are increasing: from
   the last place down, the only index that can name a place is that of its own column.
   */
  lemma CoveredIncreasing(indices: seq<nat>)
    requires forall k | 0 <= k < |indices| :: FinalPlace(indices, k) in indices
    ensures Increasing(indices)
  {
    forall k | 0 <= k < |indices| ensures FinalPlace(indices, k) == indices[k] {
      var bound := Bound(indices);
      CoveredFrom(indices, k, bound, bound - FinalPlace(indices, k));
    }
    OwnPlaceExactly(indices);
  }

  lemma {:induction false} Bound(indices: seq<nat>) returns (b: nat)
    ensures forall k | 0 <= k < |indices| :: FinalPlace(indices, k) <= b
    decreases |indices|
  {
    b := 0;
    if indices != [] {
      var m := |indices| - 1;
      var b' := Bound(indices[..m]);
      b := b' + 1 + indices[m];
    }
  }

  lemma {:induction false} CoveredFrom(indices: seq<nat>, k: nat, bound: nat, n: nat)
    requires k < |indices| && FinalPlace(indices, k) + n == bound
    requires forall l | 0 <= l < |indices| :: FinalPlace(indices, l) in indices && FinalPlace(indices, l) <= bound
    ensures FinalPlace(indices, k) == indices[k]
    decreases n
  {
    var l :| 0 <= l < |indices| && indices[l] == FinalPlace(indices, k);
    NotBefore(indices, l);
    if FinalPlace(indices, l) > FinalPlace(indices, k) {
      CoveredFrom(indices, l, bound, bound - FinalPlace(indices, l));
    } else if l < k {
      OwnPlaces(indices, l, k);
    } else if k < l {
      OwnPlaces(indices, k, l);
    }
  }

  // ----- row addresses -----

  datatype RowId = RowId(segment: nat, offset: nat)

  const SEGMENT_CAPACITY: nat := 1024 * 8192

  /** The 16-bit block number and the row in the block. */
  function BlockOf(offset: nat): nat {
    offset / CAPACITY % 0x1_0000
  }

  function RowOf(offset: nat): nat {
    offset % CAPACITY
  }

  /** In every segment block and row name the row: the block number never reaches 16 bits. */
  lemma AddressInSegment(offset: nat)
    requires offset < SEGMENT_CAPACITY
    ensures BlockOf(offset) < SEGMENT_CAPACITY / CAPACITY && RowOf(offset) < CAPACITY
    ensures BlockOf(offset) * CAPACITY + RowOf(offset) == offset
  {
  }

  // ----- filling the loaded columns -----

  /** A column of the block and its data type. */
  datatype Column<D, V> = Column(kind: D, values: seq<V>)

  /** A column to load: its place in the block, its number in the table, and its type. */
  datatype LoadMeta<D> = LoadMeta(index: nat, columnId: nat, kind: D)

  ghost function Indices<D>(metas: seq<LoadMeta<D>>): (r: seq<nat>)
    ensures |r| == |metas|
  {
    seq(|metas|, k requires 0 <= k < |metas| => metas[k].index)
  }

  /** All places of the loaded columns are places in the block. */
  ghost predicate Fits<D>(metas: seq<LoadMeta<D>>, n: nat) {
    forall k | 0 <= k < |metas| :: metas[k].index < n
  }

  /** The block with the columns `xs` inserted where the metas say. */
  ghost function WithLoaded<D, T>(base: seq<T>, metas: seq<LoadMeta<D>>, xs: seq<T>): (r: seq<T>)
    requires |xs| == |metas| && Insertable(|base|, Indices(metas))
    ensures |r| == |base| + |metas| && Fits(metas, |r|)
  {
    assert forall k | 0 <= k < |metas| :: metas[k].index == Indices(metas)[k];
    InsertAll(base, Indices(metas), xs)
  }

  /** A stored value, by segment, block, column and row. */
  type Table<!V> = (nat, nat, nat, nat) -> V

  function Cell<V>(table: Table<V>, id: RowId, column: nat): V {
    table(id.segment, BlockOf(id.offset), column, RowOf(id.offset))
  }

  /** `AppendWith` for one value: refused for another type or a full column. */
  ghost function Appended<D, V>(c: seq<Column<D, V>>, capacity: nat, meta: LoadMeta<D>,
                                v: V): (r: Option<seq<Column<D, V>>>)
    requires meta.index < |c|
    ensures r.Some? ==> |r.value| == |c|
  {
    if c[meta.index].kind != meta.kind || |c[meta.index].values| >= capacity then None
    else Some(c[meta.index := Column(c[meta.index].kind, c[meta.index].values + [v])])
  }

  /** The first `n` columns get their value of one row. */
  ghost function AppendedRow<D, V>(
      c: seq<Column<D, V>>, capacity: nat, metas: seq<LoadMeta<D>>, table: Table<V>, id: RowId, n: nat)
    : (r: Option<seq<Column<D, V>>>)
    requires n <= |metas| && Fits(metas, |c|)
    ensures r.Some? ==> |r.value| == |c|
  {
    if n == 0 then Some(c)
    else
      var prev := AppendedRow(c, capacity, metas, table, id, n - 1);
      if prev.None? then None else Appended(prev.value, capacity, metas[n - 1], Cell(table, id, metas[n - 1].columnId))
  }

  /** The first `n` rows, each found through the last column. */
  ghost function AppendedRows<D, V>(
      c: seq<Column<D, V>>, capacity: nat, metas: seq<LoadMeta<D>>, table: Table<V>, rowId: V -> RowId, n: nat)
    : (r: Option<seq<Column<D, V>>>)
    requires c != [] && Fits(metas, |c|)
    ensures r.Some? ==> |r.value| == |c|
  {
    if n == 0 then Some(c)
    else
      var prev := AppendedRows(c, capacity, metas, table, rowId, n - 1);
      if prev.None? || |prev.value[|c| - 1].values| < n then None
      else AppendedRow(prev.value, capacity, metas, table, rowId(prev.value[|c| - 1].values[n - 1]), |metas|)
  }

  ghost function NewColumns<D, V>(metas: seq<LoadMeta<D>>): (r: seq<Column<D, V>>)
    ensures |r| == |metas|
  {
    seq(|metas|, k requires 0 <= k < |metas| => Column(metas[k].kind, []))
  }

  /** The loaded columns after `n` rows, as they should be. */
  ghost function Filled<D, V>(table: Table<V>, ids: seq<RowId>, metas: seq<LoadMeta<D>>, n: nat): (r: seq<Column<D, V>>)
    requires n <= |ids|
    ensures |r| == |metas|
  {
    seq(|metas|, k requires 0 <= k < |metas| =>
      Column(metas[k].kind, seq(n, j requires 0 <= j < n => Cell(table, ids[j], metas[k].columnId))))
  }

  lemma NothingFilled<D, V>(table: Table<V>, ids: seq<RowId>, metas: seq<LoadMeta<D>>)
    ensures Filled(table, ids, metas, 0) == NewColumns(metas)
  {
    forall k | 0 <= k < |metas| ensures Filled(table, ids, metas, 0)[k] == NewColumns(metas)[k] {
      assert Filled(table, ids, metas, 0)[k].values == [];
    }
  }

  lemma FilledRow<D, V>(table: Table<V>, ids: seq<RowId>, metas: seq<LoadMeta<D>>, j: nat)
    requires j < |ids|
    ensures forall k | 0 <= k < |metas| ::
      NextValue(Filled(table, ids, metas, j)[k], Filled(table, ids, metas, j + 1)[k], metas[k], table, ids[j])
  {
  }

  ghost predicate NextValue<D, V>(before: Column<D, V>, after: Column<D, V>, meta: LoadMeta<D>, table: Table<V>,
                                  id: RowId) {
    before.kind == meta.kind && after == Column(meta.kind, before.values + [Cell(table, id, meta.columnId)])
  }

  /** The first `k` columns after a row, the others before it. */
  ghost function Partly<T>(before: seq<T>, after: seq<T>, k: nat): (r: seq<T>)
    requires k <= |before| == |after|
    ensures |r| == |before|
  {
    after[..k] + before[k..]
  }

  lemma PartlyEnds<T>(before: seq<T>, after: seq<T>)
    requires |before| == |after|
    ensures Partly(before, after, 0) == before && Partly(before, after, |before|) == after
  {
  }

  lemma OneReplaced<T>(before: seq<T>, after: seq<T>, k: nat)
    requires |before| == |after| && k < |before|
    ensures Partly(before, after, k)[k] == before[k]
    ensures Partly(before, after, k)[k := after[k]] == Partly(before, after, k + 1)
  {
  }

  lemma InsertThenUpdate<T>(s: seq<T>, i: nat, x: T, p: nat, y: T)
    requires p < i <= |s|
    ensures Inserted(s, i, x)[p := y] == Inserted(s[p := y], i, x)
  {
  }

  /** Changing a loaded column at its index. */
  lemma {:induction false} UpdateInserted<T>(s: seq<T>, indices: seq<nat>, xs: seq<T>, k: nat, y: T)
    requires |xs| == |indices| && Insertable(|s|, indices) && Increasing(indices) && k < |indices|
    ensures InsertAll(s, indices, xs)[indices[k] := y] == InsertAll(s, indices, xs[k := y])
    decreases |indices|
  {
    var m := |indices| - 1;
    var r := InsertAll(s, indices[..m], xs[..m]);
    if k == m {
      assert xs[k := y][..m] == xs[..m];
    } else {
      UpdateInserted(s, indices[..m], xs[..m], k, y);
      assert xs[k := y][..m] == xs[..m][k := y];
      InsertThenUpdate(r, indices[m], xs[m], indices[k], y);
    }
  }

  /** Reading and changing a loaded column at its index. */
  lemma UpdateLoaded<T>(s: seq<T>, indices: seq<nat>, xs: seq<T>, k: nat, y: T)
    requires |xs| == |indices| && Insertable(|s|, indices) && Increasing(indices) && k < |indices|
    ensures InsertAll(s, indices, xs)[indices[k]] == xs[k]
    ensures InsertAll(s, indices, xs)[indices[k] := y] == InsertAll(s, indices, xs[k := y])
  {
    StaysInPlace(indices, k);
    InsertedPlace(s, indices, xs, k);
    UpdateInserted(s, indices, xs, k, y);
  }

  // ----- increasing indices: every column gets its values -----

  lemma CellFilled<D, V>(
      base: seq<Column<D, V>>, capacity: nat, metas: seq<LoadMeta<D>>, xs: seq<Column<D, V>>, k: nat, v: V)
    requires Insertable(|base|, Indices(metas)) && Increasing(Indices(metas)) && k < |metas| == |xs|
    requires xs[k].kind == metas[k].kind && |xs[k].values| < capacity
    ensures Appended(WithLoaded(base, metas, xs), capacity, metas[k], v) ==
      Some(WithLoaded(base, metas, xs[k := Column(metas[k].kind, xs[k].values + [v])]))
  {
    assert Indices(metas)[k] == metas[k].index;
    UpdateLoaded(base, Indices(metas), xs, k, Column(metas[k].kind, xs[k].values + [v]));
  }

  lemma {:induction false} RowFilled<D, V>(
      base: seq<Column<D, V>>, capacity: nat, metas: seq<LoadMeta<D>>, table: Table<V>, id: RowId,
      before: seq<Column<D, V>>, after: seq<Column<D, V>>, n: nat)
    requires Insertable(|base|, Indices(metas)) && Increasing(Indices(metas)) && n <= |metas| == |before| == |after|
    requires forall k | 0 <= k < |metas| :: NextValue(before[k], after[k], metas[k], table, id)
    requires forall k | 0 <= k < |metas| :: |before[k].values| < capacity
    ensures AppendedRow(WithLoaded(base, metas, before), capacity, metas, table, id, n) ==
      Some(WithLoaded(base, metas, Partly(before, after, n)))
    decreases n
  {
    if n == 0 {
      PartlyEnds(before, after);
    } else {
      var k := n - 1;
      RowFilled(base, capacity, metas, table, id, before, after, k);
      OneReplaced(before, after, k);
      assert NextValue(before[k], after[k], metas[k], table, id);
      CellFilled(base, capacity, metas, Partly(before, after, k), k, Cell(table, id, metas[k].columnId));
    }
  }

  lemma {:induction false} LastColumn<T>(base: seq<T>, indices: seq<nat>, xs: seq<T>)
    requires |xs| == |indices| && BeforeLast(|base|, indices) && base != []
    ensures InsertAll(base, indices, xs)[|base| + |indices| - 1] == base[|base| - 1]
  {
    LastStaysExactly(|base|, indices);
    KeptPlace(base, indices, xs, |base| - 1);
  }

  /** The row ids in the last column of the block. */
  ghost function RowIds<D, V>(base: seq<Column<D, V>>, rowId: V -> RowId): (ids: seq<RowId>)
    requires base != []
    ensures |ids| == |base[|base| - 1].values|
  {
    var last := base[|base| - 1].values;
    seq(|last|, j requires 0 <= j < |last| => rowId(last[j]))
  }

  lemma NextRowFilled<D, V>(
      base: seq<Column<D, V>>, capacity: nat, metas: seq<LoadMeta<D>>, table: Table<V>, ids: seq<RowId>, j: nat)
    requires Insertable(|base|, Indices(metas)) && Increasing(Indices(metas)) && j < |ids| && j < capacity
    ensures
      AppendedRow(WithLoaded(base, metas, Filled(table, ids, metas, j)), capacity, metas, table, ids[j], |metas|)
      == Some(WithLoaded(base, metas, Filled(table, ids, metas, j + 1)))
  {
    var before, after := Filled(table, ids, metas, j), Filled(table, ids, metas, j + 1);
    FilledRow(table, ids, metas, j);
    PartlyEnds(before, after);
    RowFilled(base, capacity, metas, table, ids[j], before, after, |metas|);
  }

  lemma OneMoreRowFilled<D, V>(
      base: seq<Column<D, V>>, capacity: nat, metas: seq<LoadMeta<D>>, table: Table<V>, rowId: V -> RowId, j: nat)
    requires base != [] && BeforeLast(|base|, Indices(metas)) && Increasing(Indices(metas))
    requires j < |RowIds(base, rowId)| && j < capacity
    requires AppendedRows(WithLoaded(base, metas, NewColumns(metas)), capacity, metas, table, rowId, j) ==
      Some(WithLoaded(base, metas, Filled(table, RowIds(base, rowId), metas, j)))
    ensures AppendedRows(WithLoaded(base, metas, NewColumns(metas)), capacity, metas, table, rowId, j + 1) ==
      Some(WithLoaded(base, metas, Filled(table, RowIds(base, rowId), metas, j + 1)))
  {
    var ids := RowIds(base, rowId);
    LastColumn(base, Indices(metas), Filled(table, ids, metas, j));
    NextRowFilled(base, capacity, metas, table, ids, j);
  }

  lemma {:induction false} RowsFilled<D, V>(
      base: seq<Column<D, V>>, capacity: nat, metas: seq<LoadMeta<D>>, table: Table<V>, rowId: V -> RowId, n: nat)
    requires base != [] && BeforeLast(|base|, Indices(metas)) && Increasing(Indices(metas))
    requires n <= |RowIds(base, rowId)| && n <= capacity
    ensures AppendedRows(WithLoaded(base, metas, NewColumns(metas)), capacity, metas, table, rowId, n) ==
      Some(WithLoaded(base, metas, Filled(table, RowIds(base, rowId), metas, n)))
    decreases n
  {
    if n == 0 {
      NothingFilled(table, RowIds(base, rowId), metas);
    } else {
      RowsFilled(base, capacity, metas, table, rowId, n - 1);
      OneMoreRowFilled(base, capacity, metas, table, rowId, n - 1);
    }
  }

  // ----- other indices: something else happens -----

  /** A place that is nobody's index is not filled. */
  lemma {:induction false} RowLeaves<D, V>(
      c: seq<Column<D, V>>, capacity: nat, metas: seq<LoadMeta<D>>, table: Table<V>, id: RowId, n: nat, p: nat)
    requires n <= |metas| && Fits(metas, |c|)
    requires p < |c| && p !in Indices(metas)
    ensures var r := AppendedRow(c, capacity, metas, table, id, n); r.Some? ==> r.value[p] == c[p]
    decreases n
  {
    if n > 0 {
      RowLeaves(c, capacity, metas, table, id, n - 1, p);
      assert Indices(metas)[n - 1] == metas[n - 1].index;
    }
  }

  lemma {:induction false} RowsLeave<D, V>(
      c: seq<Column<D, V>>, capacity: nat, metas: seq<LoadMeta<D>>, table: Table<V>, rowId: V -> RowId, n: nat, p: nat)
    requires c != [] && Fits(metas, |c|)
    requires p < |c| && p !in Indices(metas)
    ensures var r := AppendedRows(c, capacity, metas, table, rowId, n); r.Some? ==> r.value[p] == c[p]
    decreases n
  {
    if n > 0 {
      RowsLeave(c, capacity, metas, table, rowId, n - 1, p);
      var prev := AppendedRows(c, capacity, metas, table, rowId, n - 1);
      if prev.Some? && |prev.value[|c| - 1].values| >= n {
        RowLeaves(prev.value, capacity, metas, table, rowId(prev.value[|c| - 1].values[n - 1]), |metas|, p);
      }
    }
  }

  lemma FilledEverywhere<D, V>(
      base: seq<Column<D, V>>, capacity: nat, metas: seq<LoadMeta<D>>, table: Table<V>, rowId: V -> RowId, n: nat)
    requires base != [] && Insertable(|base|, Indices(metas)) && 0 < n <= |RowIds(base, rowId)|
    requires AppendedRows(WithLoaded(base, metas, NewColumns(metas)), capacity, metas, table, rowId, n) ==
      Some(WithLoaded(base, metas, Filled(table, RowIds(base, rowId), metas, n)))
    ensures Increasing(Indices(metas))
  {
    var indices := Indices(metas);
    forall k | 0 <= k < |indices|
      ensures FinalPlace(indices, k) in indices
    {
      var p := FinalPlace(indices, k);
      InsertedPlace(base, indices, NewColumns(metas), k);
      InsertedPlace(base, indices, Filled(table, RowIds(base, rowId), metas, n), k);
      if p !in indices {
        RowsLeave(WithLoaded(base, metas, NewColumns(metas)), capacity, metas, table, rowId, n, p);
      }
    }
    CoveredIncreasing(indices);
  }

  /** Inserted at the end, a loaded column is taken for the row ids, and it is still empty. */
  lemma {:induction false} NoRowIds<D, V>(
      base: seq<Column<D, V>>, capacity: nat, metas: seq<LoadMeta<D>>, table: Table<V>, rowId: V -> RowId, n: nat)
    requires Insertable(|base|, Indices(metas)) && !BeforeLast(|base|, Indices(metas)) && n > 0
    ensures AppendedRows(WithLoaded(base, metas, NewColumns(metas)), capacity, metas, table, rowId, n) == None
    decreases n
  {
    if n == 1 {
      var k := LastIsLoaded(|base|, Indices(metas));
      InsertedPlace(base, Indices(metas), NewColumns<D, V>(metas), k);
    } else {
      NoRowIds(base, capacity, metas, table, rowId, n - 1);
    }
  }

  /** The block after `InputLoad`, or None for an unrecoverable error. */
  ghost function Loaded<D, V>(
      base: seq<Column<D, V>>, capacity: nat, rows: nat, metas: seq<LoadMeta<D>>, table: Table<V>, rowId: V -> RowId)
    : Option<seq<Column<D, V>>>
    requires Insertable(|base|, Indices(metas))
  {
    if metas == [] then Some(base)
    else
      AppendedRows(WithLoaded(base, metas, NewColumns(metas)), capacity, metas, table, rowId, rows)
  }

  /**
   For every list of columns to load: `InputLoad` leaves the block's own columns and the stored values
   of the loaded ones, exactly when their indices increase and lie before the row ids (or there is no row).
   If an index does not lie before the row ids, it fails.
   */
  lemma LoadedExactly<D, V>(
      base: seq<Column<D, V>>, capacity: nat, rows: nat, metas: seq<LoadMeta<D>>, table: Table<V>, rowId: V -> RowId)
    requires base != [] && Insertable(|base|, Indices(metas))
    requires rows == |base[|base| - 1].values| <= capacity
    ensures Loaded(base, capacity, rows, metas, table, rowId) ==
        Some(WithLoaded(base, metas, Filled(table, RowIds(base, rowId), metas, rows)))
      <==> rows == 0 || (Increasing(Indices(metas)) && BeforeLast(|base|, Indices(metas)))
    ensures rows > 0 && !BeforeLast(|base|, Indices(metas)) ==>
      Loaded(base, capacity, rows, metas, table, rowId) == None
  {
    if metas != [] {
      if rows == 0 {
        NothingFilled(table, RowIds(base, rowId), metas);
      } else if !BeforeLast(|base|, Indices(metas)) {
        NoRowIds(base, capacity, metas, table, rowId, rows);
      } else if Increasing(Indices(metas)) {
        RowsFilled(base, capacity, metas, table, rowId, rows);
      } else if Loaded(base, capacity, rows, metas, table, rowId) ==
                Some(WithLoaded(base, metas, Filled(table, RowIds(base, rowId), metas, rows))) {
        FilledEverywhere(base, capacity, metas, table, rowId, rows);
      }
    }
  }

  lemma InsertedOutOfOrder<T>(x: T, y: T, a: T, b: T)
    ensures InsertAll([x, y], [1, 0], [a, b]) == [b, x, a, y]
  {
    assert [1, 0][..1] == [1] && [a, b][..1] == [a] && [1][..0] == [] && [a][..0] == [];
    assert InsertAll([x, y], [], []) == [x, y];
    assert Inserted([x, y], 1, a) == [x, a, y] && Inserted([x, a, y], 0, b) == [b, x, a, y];
    assert InsertAll([x, y], [1], [a]) == [x, a, y];
  }

  lemma RowOutOfOrder<D, V>(own: Column<D, V>, ids: Column<D, V>, a: LoadMeta<D>, b: LoadMeta<D>,
                            capacity: nat, table: Table<V>, id: RowId)
    requires |own.values| == 1 < capacity && a.index == 1 && b.index == 0
    ensures AppendedRow([Column(b.kind, []), own, Column(a.kind, []), ids], capacity, [a, b], table, id, 2) ==
      if own.kind != a.kind then None
      else Some([Column(b.kind, [Cell(table, id, b.columnId)]),
                 Column(own.kind, own.values + [Cell(table, id, a.columnId)]), Column(a.kind, []), ids])
  {
    var c := [Column(b.kind, []), own, Column(a.kind, []), ids];
    var metas, own' := [a, b], Column(own.kind, own.values + [Cell(table, id, a.columnId)]);
    assert AppendedRow(c, capacity, metas, table, id, 0) == Some(c);
    assert AppendedRow(c, capacity, metas, table, id, 1) == Appended(c, capacity, a, Cell(table, id, a.columnId));
    if own.kind == a.kind {
      var c' := [Column(b.kind, []), own', Column(a.kind, []), ids];
      assert c[1 := own'] == c';
      assert AppendedRow(c, capacity, metas, table, id, 2) == Appended(c', capacity, b, Cell(table, id, b.columnId));
      var first := Column(b.kind, [Cell(table, id, b.columnId)]);
      assert [] + [Cell(table, id, b.columnId)] == [Cell(table, id, b.columnId)];
      assert c'[0 := first] == [first, own', Column(a.kind, []), ids];
    }
  }

  /**
   Two columns to load at 1 and then at 0 into a block of one column and the row ids. The first of them ends up at
   2 and stays empty; its value goes to the block's own column, or the types differ and loading fails.
   */
  lemma LoadedOutOfOrder<D, V>(own: Column<D, V>, ids: Column<D, V>, a: LoadMeta<D>, b: LoadMeta<D>,
                               capacity: nat, table: Table<V>, rowId: V -> RowId)
    requires |own.values| == |ids.values| == 1 < capacity && a.index == 1 && b.index == 0
    ensures var id := rowId(ids.values[0]);
      && !Increasing(Indices([a, b])) && BeforeLast(2, Indices([a, b]))
      && Loaded([own, ids], capacity, 1, [a, b], table, rowId) ==
           if own.kind != a.kind then None
           else Some([Column(b.kind, [Cell(table, id, b.columnId)]),
                      Column(own.kind, own.values + [Cell(table, id, a.columnId)]),
                      Column(a.kind, []), ids])
  {
    var metas, c := [a, b], [Column(b.kind, []), own, Column(a.kind, []), ids];
    assert Indices(metas) == [1, 0] && NewColumns<D, V>(metas) == [Column(a.kind, []), Column(b.kind, [])];
    InsertedOutOfOrder(own, ids, Column(a.kind, []), Column(b.kind, []));
    assert WithLoaded([own, ids], metas, NewColumns(metas)) == c;
    assert AppendedRows(c, capacity, metas, table, rowId, 0) == Some(c);
    RowOutOfOrder(own, ids, a, b, capacity, table, rowId(ids.values[0]));
  }

  // ----- the loops -----

  class InputBlock<D(==), V> {
    const capacity: nat
    const rowCount: nat
    var columns: seq<Column<D, V>>

    constructor (columns: seq<Column<D, V>>, rowCount: nat, capacity: nat)
      ensures this.columns == columns && this.rowCount == rowCount && this.capacity == capacity
    {
      this.columns, this.rowCount, this.capacity := columns, rowCount, capacity;
    }

    method InsertVector(column: Column<D, V>, index: nat)
      requires index <= |columns|
      modifies this
      ensures columns == Inserted(old(columns), index, column)
    {
      columns := columns[..index] + [column] + columns[index..];
    }

    method AppendWith(meta: LoadMeta<D>, v: V) returns (ok: bool)
      requires meta.index < |columns|
      modifies this
      ensures ok <==> Appended(old(columns), capacity, meta, v).Some?
      ensures ok ==> columns == Appended(old(columns), capacity, meta, v).value
      ensures |columns| == |old(columns)|
    {
      var c := columns[meta.index];
      if c.kind != meta.kind || |c.values| + 1 > capacity {
        return false;
      }
      columns := columns[meta.index := Column(c.kind, c.values + [v])];
      return true;
    }

    method InsertVectors(metas: seq<LoadMeta<D>>)
      requires Insertable(|columns|, Indices(metas))
      modifies this
      ensures columns == WithLoaded(old(columns), metas, NewColumns(metas))
    {
      ghost var indices, empty := Indices(metas), NewColumns<D, V>(metas);
      for k := 0 to |metas|
        invariant columns == InsertAll(old(columns), indices[..k], empty[..k])
      {
        assert indices[..k + 1][..k] == indices[..k] && empty[..k + 1][..k] == empty[..k];
        assert indices[k] == metas[k].index;
        InsertVector(Column(metas[k].kind, []), metas[k].index);
      }
      assert indices[..|metas|] == indices && empty[..|metas|] == empty;
    }

    /** One row: each loaded column gets its value, unless one of them is refused. */
    method LoadRow(metas: seq<LoadMeta<D>>, table: Table<V>, id: RowId) returns (ok: bool)
      requires Fits(metas, |columns|)
      modifies this
      ensures ok <==> AppendedRow(old(columns), capacity, metas, table, id, |metas|).Some?
      ensures ok ==> Some(columns) == AppendedRow(old(columns), capacity, metas, table, id, |metas|)
    {
      for k := 0 to |metas|
        invariant Some(columns) == AppendedRow(old(columns), capacity, metas, table, id, k)
      {
        ok := AppendWith(metas[k], Cell(table, id, metas[k].columnId));
        if !ok {
          RefusedLater(old(columns), capacity, metas, table, id, k + 1, |metas|);
          return;
        }
      }
      return true;
    }

    /** `InputLoad` for one block. */
    method Load(metas: seq<LoadMeta<D>>, table: Table<V>, rowId: V -> RowId) returns (ok: bool)
      requires Insertable(|columns|, Indices(metas))
      modifies this
      ensures ok <==> Loaded(old(columns), capacity, rowCount, metas, table, rowId).Some?
      ensures ok ==> Some(columns) == Loaded(old(columns), capacity, rowCount, metas, table, rowId)
    {
      if metas == [] {
        return true;
      }
      InsertVectors(metas);
      ghost var inserted := columns;
      for j := 0 to rowCount
        invariant Some(columns) == AppendedRows(inserted, capacity, metas, table, rowId, j)
      {
        ok := LoadNext(metas, table, rowId, j, inserted);
        if !ok {
          FailedLater(inserted, capacity, metas, table, rowId, j + 1, rowCount);
          return;
        }
      }
      return true;
    }

    /** Row `j`, found through the last column. */
    method LoadNext(metas: seq<LoadMeta<D>>, table: Table<V>, rowId: V -> RowId, j: nat,
                    ghost inserted: seq<Column<D, V>>)
      returns (ok: bool)
      requires inserted != [] && Fits(metas, |inserted|)
      requires Some(columns) == AppendedRows(inserted, capacity, metas, table, rowId, j)
      modifies this
      ensures ok <==> AppendedRows(inserted, capacity, metas, table, rowId, j + 1).Some?
      ensures ok ==> Some(columns) == AppendedRows(inserted, capacity, metas, table, rowId, j + 1)
    {
      var last := columns[|columns| - 1].values;
      if j >= |last| {
        return false;
      }
      ok := LoadRow(metas, table, rowId(last[j]));
    }
  }

  lemma {:induction false} RefusedLater<D, V>(
      c: seq<Column<D, V>>, capacity: nat, metas: seq<LoadMeta<D>>, table: Table<V>, id: RowId, k: nat, n: nat)
    requires k <= n <= |metas| && Fits(metas, |c|)
    requires AppendedRow(c, capacity, metas, table, id, k).None?
    ensures AppendedRow(c, capacity, metas, table, id, n).None?
    decreases n
  {
    if k < n {
      RefusedLater(c, capacity, metas, table, id, k, n - 1);
    }
  }

  lemma {:induction false} FailedLater<D, V>(
      c: seq<Column<D, V>>, capacity: nat, metas: seq<LoadMeta<D>>, table: Table<V>, rowId: V -> RowId, j: nat, n: nat)
    requires j <= n && c != [] && Fits(metas, |c|)
    requires AppendedRows(c, capacity, metas, table, rowId, j).None?
    ensures AppendedRows(c, capacity, metas, table, rowId, n).None?
    decreases n
  {
    if j < n {
      FailedLater(c, capacity, metas, table, rowId, j, n - 1);
    }
  }

  /** `GetOutputNames` and `GetOutputTypes`: the lists get the loaded names and types at the same places. */
  method InsertItems<T>(previous: seq<T>, indices: seq<nat>, items: seq<T>) returns (output: seq<T>)
    requires Insertable(|previous|, indices) && |items| == |indices|
    ensures output == InsertAll(previous, indices, items)
  {
    output := previous;
    for k := 0 to |indices|
      invariant output == InsertAll(previous, indices[..k], items[..k])
    {
      assert indices[..k + 1][..k] == indices[..k] && items[..k + 1][..k] == items[..k];
      output := output[..indices[k]] + [items[k]] + output[indices[k]..];
    }
    assert indices[..|indices|] == indices && items[..|items|] == items;
  }
}
