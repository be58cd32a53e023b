/**
 Columns of tensor arrays: the bytes of the tensors live in one heap, the list of a row's tensors, as the
 memory of its cells, in another one (src/storage/column_vector/column_vector.cpp,
 src/embedded_infinity/wrap_infinity.cpp).
 */
module TensorArrays {
  import opened Integers
  import opened Sequences
  import opened Wrappers
  import opened FixHeap
  import opened ColumnEncoders
  import opened Columns

  // ----- the memory of a list of tensors -----

  const CELL_BYTES: nat := 8

  function Bytes2(n: nat): (r: seq<Byte>)
    ensures |r| == 2
  {
    [n % 256, n / 0x100 % 256]
  }

  function FromBytes2(b: seq<Byte>): nat
    requires |b| == 2
  {
    b[0] as int + 0x100 * b[1] as int
  }

  function TensorBytes(t: Tensor): (r: seq<Byte>)
    ensures |r| == CELL_BYTES
  {
    Bytes2(t.embeddingNum) + Bytes2(t.chunk) + Bytes4(t.offset)
  }

  function FromTensorBytes(b: seq<Byte>): Tensor
    requires |b| == CELL_BYTES
  {
    Tensor(FromBytes2(b[..2]), FromBytes2(b[2..4]), FromBytes4(b[4..]))
  }

  lemma TensorRoundTrip(t: Tensor)
    requires InRange(t)
    ensures FromTensorBytes(TensorBytes(t)) == t
  {
    var b := TensorBytes(t);
    assert b[..2] == Bytes2(t.embeddingNum) && b[2..4] == Bytes2(t.chunk) && b[4..] == Bytes4(t.offset);
    Bytes4RoundTrip(t.offset);
  }

  ghost function ListBytes(row: seq<Tensor>): seq<Byte> {
    EncodedBy(TensorBytes, row)
  }

  lemma {:induction false} ListSize(row: seq<Tensor>, n: nat)
    requires n <= |row|
    ensures |ListBytes(row[..n])| == CELL_BYTES * n
  {
    if n > 0 {
      ListSize(row, n - 1);
      ByLast(TensorBytes, row, n - 1);
    }
  }

  /** Cell `j` of the list, in its memory. */
  lemma ListCell(row: seq<Tensor>, j: nat)
    requires j < |row|
    ensures |ListBytes(row)| == CELL_BYTES * |row|
    ensures ListBytes(row)[CELL_BYTES * j..CELL_BYTES * (j + 1)] == TensorBytes(row[j])
  {
    ListSize(row, |row|);
    ListSize(row, j);
    assert row[..|row|] == row && row == row[..j] + ([row[j]] + row[j + 1..]);
    ByAppend(TensorBytes, row[..j], [row[j]] + row[j + 1..]);
    ByAppend(TensorBytes, [row[j]], row[j + 1..]);
    ByOne(TensorBytes, row[j]);
    InMiddle(ListBytes(row[..j]), TensorBytes(row[j]), ListBytes(row[j + 1..]), 0, CELL_BYTES);
  }

  /** A list read back from its memory. */
  method ReadList(bytes: seq<Byte>, n: nat, ghost row: seq<Tensor>) returns (r: seq<Tensor>)
    requires bytes == ListBytes(row) && n == |row| && forall j | 0 <= j < |row| :: InRange(row[j])
    ensures r == row
  {
    r := [];
    for j := 0 to n
      invariant r == row[..j]
    {
      ListCell(row, j);
      TensorRoundTrip(row[j]);
      r := r + [FromTensorBytes(bytes[CELL_BYTES * j..CELL_BYTES * (j + 1)])];
    }
  }

  method WriteList(row: seq<Tensor>) returns (bytes: seq<Byte>)
    ensures bytes == ListBytes(row) && |bytes| == CELL_BYTES * |row|
  {
    bytes := [];
    assert ListBytes(row[..0]) == [];
    for j := 0 to |row|
      invariant bytes == ListBytes(row[..j])
    {
      ByLast(TensorBytes, row, j);
      bytes := bytes + TensorBytes(row[j]);
    }
    assert row[..|row|] == row;
    ListSize(row, |row|);
  }

  // ----- the column -----

  /** How many tensors, in 16 bits, and the place of their list. */
  datatype TensorArray = TensorArray(tensorNum: nat, chunk: nat, offset: nat)

  ghost predicate RowHolds(cell: TensorArray, row: seq<Tensor>, tensors: seq<seq<Byte>>, unit: nat,
                           lists: seq<Stored>, stored: seq<Stored>) {
    && cell.tensorNum == |row| && Stored(cell.chunk, cell.offset, ListBytes(row)) in lists
    && (forall j | 0 <= j < |row| :: InRange(row[j])) && AllLocated(row, unit, stored, tensors)
  }

  ghost predicate AllRowsHold(cells: seq<TensorArray>, rows: seq<seq<Tensor>>, values: seq<seq<seq<Byte>>>, unit: nat,
                              lists: seq<Stored>, stored: seq<Stored>) {
    && |cells| == |rows| == |values|
    && forall i | 0 <= i < |cells| :: RowHolds(cells[i], rows[i], values[i], unit, lists, stored)
  }

  lemma RowsStillHold(cells: seq<TensorArray>, rows: seq<seq<Tensor>>, values: seq<seq<seq<Byte>>>, unit: nat,
                      lists: seq<Stored>, stored: seq<Stored>, lists': seq<Stored>, stored': seq<Stored>)
    requires AllRowsHold(cells, rows, values, unit, lists, stored) && lists <= lists' && stored <= stored'
    ensures AllRowsHold(cells, rows, values, unit, lists', stored')
  {
    forall i | 0 <= i < |cells|
      ensures RowHolds(cells[i], rows[i], values[i], unit, lists', stored')
    {
      assert RowHolds(cells[i], rows[i], values[i], unit, lists, stored);
      StillLocated(rows[i], unit, stored, stored', values[i]);
    }
  }

  lemma OneMoreRow(cells: seq<TensorArray>, rows: seq<seq<Tensor>>, values: seq<seq<seq<Byte>>>, unit: nat,
                   lists: seq<Stored>, stored: seq<Stored>, lists': seq<Stored>, stored': seq<Stored>,
                   cell: TensorArray, row: seq<Tensor>, tensors: seq<seq<Byte>>)
    requires AllRowsHold(cells, rows, values, unit, lists, stored) && lists <= lists' && stored <= stored'
    requires RowHolds(cell, row, tensors, unit, lists', stored')
    ensures AllRowsHold(cells + [cell], rows + [row], values + [tensors], unit, lists', stored')
  {
    RowsStillHold(cells, rows, values, unit, lists, stored, lists', stored');
  }

  /** The tensors of a row that are stored: their number is cut to 16 bits. */
  ghost function StoredPart(tensors: seq<seq<Byte>>): seq<seq<Byte>> {
    tensors[..|tensors| % TWO16]
  }

  ghost function BytesOf(tensors: seq<seq<Byte>>): nat {
    if tensors == [] then 0 else BytesOf(tensors[..|tensors| - 1]) + HeapBytes(tensors[|tensors| - 1])
  }

  lemma {:induction false} FirstBytesOf(tensors: seq<seq<Byte>>, i: nat)
    requires i <= |tensors|
    ensures BytesOf(tensors[..i]) <= BytesOf(tensors)
    ensures i < |tensors| ==>
      BytesOf(tensors[..i]) + HeapBytes(tensors[i]) == BytesOf(tensors[..i + 1]) <= BytesOf(tensors)
    decreases |tensors|
  {
    if i == |tensors| {
      assert tensors[..i] == tensors;
    } else {
      var front := tensors[..|tensors| - 1];
      FirstBytesOf(front, i);
      assert front[..i] == tensors[..i] && tensors[..i + 1][..i] == tensors[..i];
      assert i + 1 < |tensors| ==> front[..i + 1] == tensors[..i + 1];
      assert i + 1 == |tensors| ==> tensors[..i + 1] == tensors;
    }
  }

  lemma RoomForTensor(tensors: seq<seq<Byte>>, n: nat, j: nat)
    requires j < n <= |tensors|
    ensures tensors[..j + 1] == tensors[..j] + [tensors[j]]
    ensures BytesOf(tensors[..j + 1]) == BytesOf(tensors[..j]) + HeapBytes(tensors[j]) <= BytesOf(tensors[..n])
  {
    FirstBytesOf(tensors[..n], j);
    assert tensors[..n][..j] == tensors[..j] && tensors[..n][..j + 1] == tensors[..j + 1];
  }

  ghost predicate ArrayStorable(tensors: seq<seq<Byte>>, unit: nat)
    requires unit > 0
  {
    StoredPart(tensors) != [] && forall j | 0 <= j < |StoredPart(tensors)| :: Storable(StoredPart(tensors)[j], unit)
  }

  ghost function KeptArray(tensors: seq<seq<Byte>>, unit: nat): seq<seq<Byte>>
    requires unit > 0
  {
    KeptTensors(StoredPart(tensors), unit)
  }

  /** The cells of a row and the tensors they stand for. */
  ghost predicate RowStored(row: seq<Tensor>, tensors: seq<seq<Byte>>, unit: nat, stored: seq<Stored>)
    requires unit > 0
  {
    (forall j | 0 <= j < |row| :: InRange(row[j])) && AllLocated(row, unit, stored, KeptTensors(tensors, unit))
  }

  lemma OneMoreStored(row: seq<Tensor>, tensors: seq<seq<Byte>>, unit: nat, before: seq<Stored>,
                      t: Tensor, data: seq<Byte>, stored: seq<Stored>)
    requires unit > 0 && RowStored(row, tensors, unit, before) && before <= stored
    requires InRange(t) && Locates(t, unit, stored, KeptTensor(data, unit))
    ensures RowStored(row + [t], tensors + [data], unit, stored)
  {
    StillLocated(row, unit, before, stored, KeptTensors(tensors, unit));
    OneMoreKept(tensors, data, unit);
  }

  lemma CutPlace(chunk: nat, offset: nat)
    requires chunk < TWO16 && offset < TWO32
    ensures chunk % TWO16 == chunk && offset % TWO32 == offset
  {
  }

  class TensorArrayColumn {
    const unit: nat
    /** The lists of tensors. */
    const heap: FixHeapManager
    /** The bytes of the tensors. */
    const tensorHeap: FixHeapManager
    var cells: seq<TensorArray>
    ghost var rows: seq<seq<Tensor>>
    /** What is read for each row. */
    ghost var values: seq<seq<seq<Byte>>>

    ghost predicate Valid()
      reads this, heap, tensorHeap
    {
      && unit > 0 && heap != tensorHeap && |cells| <= ROWS
      && heap.Valid() && heap.acrossChunks && heap.chunkSize == STRING_CHUNK && TensorHeap(tensorHeap)
      && heap.Used() <= CELL_BYTES * (TWO16 - 1) * |cells|
      && AllRowsHold(cells, rows, values, unit, heap.stored, tensorHeap.stored)
    }

    constructor (unit: nat)
      requires unit > 0
      ensures Valid() && values == [] && fresh(heap) && fresh(tensorHeap) && this.unit == unit
      ensures tensorHeap.Used() == 0
    {
      this.unit := unit;
      heap := new FixHeapManager(STRING_CHUNK, true);
      tensorHeap := new FixHeapManager(TENSOR_CHUNK, false);
      cells, rows, values := [], [], [];
    }

    /** The bytes of the first `n` tensors go into their heap. */
    method StoreTensors(tensors: seq<seq<Byte>>, n: nat) returns (r: Result<seq<Tensor>, ColumnError>)
      requires n <= |tensors| && unit > 0 && TensorHeap(tensorHeap)
      requires tensorHeap.Used() + 2 * BytesOf(tensors[..n]) <= TENSOR_SPACE
      modifies tensorHeap
      ensures TensorHeap(tensorHeap) && old(tensorHeap.stored) <= tensorHeap.stored
      ensures tensorHeap.Used() <= old(tensorHeap.Used()) + 2 * BytesOf(tensors[..n])
      ensures r.Success? <==> forall j | 0 <= j < n :: Storable(tensors[j], unit)
      ensures r.Success? ==> RowStored(r.value, tensors[..n], unit, tensorHeap.stored)
    {
      var row: seq<Tensor> := [];
      for j := 0 to n
        invariant TensorHeap(tensorHeap) && old(tensorHeap.stored) <= tensorHeap.stored
        invariant tensorHeap.Used() <= old(tensorHeap.Used()) + 2 * BytesOf(tensors[..j])
        invariant forall k | 0 <= k < j :: Storable(tensors[k], unit)
        invariant RowStored(row, tensors[..j], unit, tensorHeap.stored)
      {
        RoomForTensor(tensors, n, j);
        var t := StoreNextTensor(row, tensors[..j], tensors[j]);
        if t.Failure? {
          return Failure(t.error);
        }
        row := row + [t.value];
      }
      return Success(row);
    }

    method StoreNextTensor(ghost row: seq<Tensor>, ghost tensors: seq<seq<Byte>>, data: seq<Byte>)
      returns (r: Result<Tensor, ColumnError>)
      requires unit > 0 && TensorHeap(tensorHeap) && tensorHeap.Used() + 2 * HeapBytes(data) <= TENSOR_SPACE
      requires RowStored(row, tensors, unit, tensorHeap.stored)
      modifies tensorHeap
      ensures TensorHeap(tensorHeap) && old(tensorHeap.stored) <= tensorHeap.stored
      ensures tensorHeap.Used() <= old(tensorHeap.Used()) + 2 * HeapBytes(data)
      ensures r.Success? <==> Storable(data, unit)
      ensures r.Success? ==> RowStored(row + [r.value], tensors + [data], unit, tensorHeap.stored)
    {
      r := StoreTensor(tensorHeap, unit, data);
      if r.Success? {
        OneMoreStored(row, tensors, unit, old(tensorHeap.stored), r.value, data, tensorHeap.stored);
      }
    }

    /** Stores the tensors of a row; only as many of them as the 16-bit count says. */
    method Append(tensors: seq<seq<Byte>>) returns (error: Option<ColumnError>)
      requires Valid() && tensorHeap.Used() + 2 * BytesOf(StoredPart(tensors)) <= TENSOR_SPACE
      modifies this, heap, tensorHeap
      ensures error.None? ==>
        Valid() && tensorHeap.Used() <= old(tensorHeap.Used()) + 2 * BytesOf(StoredPart(tensors))
      ensures error.None? <==> old(|cells|) < ROWS && ArrayStorable(tensors, unit)
      ensures values == if error.None? then old(values) + [KeptArray(tensors, unit)] else old(values)
    {
      if |cells| >= ROWS {
        return Some(Full);
      }
      var n := |tensors| % TWO16;
      var r := StoreTensors(tensors, n);
      if r.Failure? {
        return Some(r.error);
      }
      if n == 0 {
        return Some(NoTensors);
      }
      var place := StoreList(r.value);
      AddRow(TensorArray(n, place.0, place.1), r.value, KeptArray(tensors, unit),
             old(heap.stored), old(tensorHeap.stored));
      return None;
    }

    method AddRow(cell: TensorArray, ghost row: seq<Tensor>, ghost tensors: seq<seq<Byte>>,
                  ghost lists: seq<Stored>, ghost stored: seq<Stored>)
      requires AllRowsHold(cells, rows, values, unit, lists, stored)
      requires lists <= heap.stored && stored <= tensorHeap.stored
      requires RowHolds(cell, row, tensors, unit, heap.stored, tensorHeap.stored)
      modifies this
      ensures cells == old(cells) + [cell] && rows == old(rows) + [row] && values == old(values) + [tensors]
      ensures AllRowsHold(cells, rows, values, unit, heap.stored, tensorHeap.stored)
    {
      OneMoreRow(cells, rows, values, unit, lists, stored, heap.stored, tensorHeap.stored, cell, row, tensors);
      cells, rows, values := cells + [cell], rows + [row], values + [tensors];
    }

    /**
     The list goes into its heap. With at most 65535 cells of eight bytes for each row, the lists of a block fill fewer
     than 65536 chunks, so 16 bits are enough for the chunk.
     */
    method StoreList(row: seq<Tensor>) returns (place: (nat, nat))
      requires heap.Valid() && heap.acrossChunks && heap.chunkSize == STRING_CHUNK
      requires 0 < |row| < TWO16 && |cells| < ROWS
      requires heap.Used() <= CELL_BYTES * (TWO16 - 1) * |cells|
      modifies heap
      ensures heap.Valid() && old(heap.stored) <= heap.stored
      ensures heap.Used() <= CELL_BYTES * (TWO16 - 1) * (|cells| + 1)
      ensures place.0 < TWO16 && place.1 < TWO32 && Stored(place.0, place.1, ListBytes(row)) in heap.stored
    {
      var bytes := WriteList(row);
      place := StoreBytes(bytes, |cells|);
    }

    lemma ListPlace(s: Stored, n: nat)
      requires heap.Valid() && heap.chunkSize == STRING_CHUNK && n < ROWS
      requires heap.stored != [] && heap.stored[|heap.stored| - 1] == s
      requires heap.Used() - |s.data| <= CELL_BYTES * (TWO16 - 1) * n
      ensures s.chunk < TWO16 && s.offset < TWO32
    {
      heap.AmongFirst(s, TWO16);
    }

    method StoreBytes(bytes: seq<Byte>, ghost n: nat) returns (place: (nat, nat))
      requires heap.Valid() && heap.acrossChunks && heap.chunkSize == STRING_CHUNK && bytes != [] && n < ROWS
      requires heap.Used() <= CELL_BYTES * (TWO16 - 1) * n
      modifies heap
      ensures heap.Valid() && heap.Used() == old(heap.Used()) + |bytes|
      ensures place.0 < TWO16 && place.1 < TWO32 && heap.stored == old(heap.stored) + [Stored(place.0, place.1, bytes)]
    {
      var r := heap.AppendToHeap(bytes);
      ListPlace(Stored(r.value.0, r.value.1, bytes), n);
      CutPlace(r.value.0, r.value.1);
      place := (r.value.0 % TWO16, r.value.1 % TWO32);
    }

    /** The list of one row. */
    method ReadRow(i: nat) returns (row: seq<Tensor>)
      requires Valid() && i < |cells|
      ensures row == rows[i]
    {
      var cell := cells[i];
      assert RowHolds(cell, rows[i], values[i], unit, heap.stored, tensorHeap.stored);
      heap.StoredAt(Stored(cell.chunk, cell.offset, ListBytes(rows[i])));
      ListSize(rows[i], |rows[i]|);
      assert rows[i][..|rows[i]|] == rows[i];
      var bytes := heap.ReadFromHeap(cell.chunk, cell.offset, CELL_BYTES * cell.tensorNum);
      row := ReadList(bytes.value, cell.tensorNum, rows[i]);
    }

    method RowSize(row: seq<Tensor>, ghost tensors: seq<seq<Byte>>) returns (size: nat)
      requires AllLocated(row, unit, tensorHeap.stored, tensors)
      ensures size == |ArrayEntry(tensors)|
    {
      size := 4;
      for j := 0 to |row|
        invariant size == 4 + |Encoded(tensors[..j])|
      {
        ByLast(Entry, tensors, j);
        assert Locates(row[j], unit, tensorHeap.stored, tensors[j]);
        size := size + 4 + row[j].embeddingNum * unit;
      }
      assert tensors[..|row|] == tensors;
    }

    method CopyRow(dst: array<Byte>, at0: nat, row: seq<Tensor>, ghost tensors: seq<seq<Byte>>) returns (at: nat)
      requires TensorHeap(tensorHeap) && AllLocated(row, unit, tensorHeap.stored, tensors)
      requires at0 + |ArrayEntry(tensors)| <= dst.Length < TWO31
      modifies dst
      ensures at == at0 + |ArrayEntry(tensors)| && dst[..at] == old(dst[..at0]) + ArrayEntry(tensors)
    {
      CopyBytes(dst, at0, Bytes4(|row|));
      at := CopyTensors(dst, at0 + 4, row, unit, tensorHeap, tensors);
      Associate(old(dst[..at0]), Bytes4(|row|), Encoded(tensors));
    }

    /** The first loop of `HandleTensorArrayType`: reads every list and measures the column. */
    method ReadRows() returns (lists: seq<seq<Tensor>>, expected: nat)
      requires Valid()
      ensures lists == rows && expected == |EncodedArrays(values)|
    {
      lists, expected := [], 0;
      for i := 0 to |cells|
        invariant lists == rows[..i] && expected == |EncodedArrays(values[..i])|
      {
        ByLast(ArrayEntry, values, i);
        var row, size := MeasureRow(i);
        assert rows[..i + 1] == rows[..i] + [rows[i]];
        lists, expected := lists + [row], expected + size;
      }
      assert values[..|cells|] == values && rows[..|cells|] == rows;
    }

    method MeasureRow(i: nat) returns (row: seq<Tensor>, size: nat)
      requires Valid() && i < |cells|
      ensures row == rows[i] && size == |ArrayEntry(values[i])|
    {
      assert RowHolds(cells[i], rows[i], values[i], unit, heap.stored, tensorHeap.stored);
      row := ReadRow(i);
      size := RowSize(row, values[i]);
    }

    lemma RowLocated(i: nat)
      requires Valid() && i < |cells|
      ensures TensorHeap(tensorHeap) && AllLocated(rows[i], unit, tensorHeap.stored, values[i])
    {
      assert RowHolds(cells[i], rows[i], values[i], unit, heap.stored, tensorHeap.stored);
    }

    /** `HandleTensorArrayType`. */
    method Encode() returns (dst: array<Byte>)
      requires Valid() && |EncodedArrays(values)| < TWO31
      ensures fresh(dst) && dst[..] == EncodedArrays(values)
    {
      var lists, expected := ReadRows();
      dst := new Byte[expected];
      var at := 0;
      for i := 0 to |lists|
        invariant at == |EncodedArrays(values[..i])| && at <= dst.Length && dst[..at] == EncodedArrays(values[..i])
      {
        ByLast(ArrayEntry, values, i);
        RowLocated(i);
        at := CopyRow(dst, at, lists[i], values[i]);
      }
      assert values[..|lists|] == values && dst[..dst.Length] == dst[..];
    }
  }

  // ----- from end to end -----

  ghost function KeptArrays(arrays: seq<seq<seq<Byte>>>, unit: nat): (kept: seq<seq<seq<Byte>>>)
    requires unit > 0
    ensures |kept| == |arrays|
  {
    seq(|arrays|, i requires 0 <= i < |arrays| => KeptArray(arrays[i], unit))
  }

  ghost predicate WholeArray(tensors: seq<seq<Byte>>, unit: nat)
    requires unit > 0
  {
    |tensors| < TWO16 && forall j | 0 <= j < |tensors| :: |tensors[j]| / unit < TWO16
  }

  /** An array comes back exactly if it has fewer than 65536 tensors and each of them fewer than 65536 embeddings. */
  lemma KeptArrayExactly(tensors: seq<seq<Byte>>, unit: nat)
    requires unit > 0 && ArrayStorable(tensors, unit)
    ensures KeptArray(tensors, unit) == tensors <==> WholeArray(tensors, unit)
  {
    if |tensors| < TWO16 {
      assert StoredPart(tensors) == tensors;
      KeptTensorsExactly(tensors, unit);
    }
  }

  /** The bytes of all tensors that are stored. */
  ghost function ArrayBytes(arrays: seq<seq<seq<Byte>>>): nat {
    if arrays == [] then 0 else ArrayBytes(arrays[..|arrays| - 1]) + BytesOf(StoredPart(arrays[|arrays| - 1]))
  }

  lemma OneMoreArray(arrays: seq<seq<seq<Byte>>>, tensors: seq<seq<Byte>>, unit: nat)
    requires unit > 0
    ensures ArrayBytes(arrays + [tensors]) == ArrayBytes(arrays) + BytesOf(StoredPart(tensors))
    ensures KeptArrays(arrays + [tensors], unit) == KeptArrays(arrays, unit) + [KeptArray(tensors, unit)]
  {
    assert (arrays + [tensors])[..|arrays|] == arrays;
  }

  lemma {:induction false} RoomForNext(arrays: seq<seq<seq<Byte>>>, i: nat)
    requires i < |arrays|
    ensures ArrayBytes(arrays[..i]) + BytesOf(StoredPart(arrays[i])) <= ArrayBytes(arrays)
    decreases |arrays|
  {
    var front := arrays[..|arrays| - 1];
    if i < |front| {
      RoomForNext(front, i);
      assert front[..i] == arrays[..i] && front[i] == arrays[i];
    } else {
      assert arrays[..i] == front;
    }
  }

  /** The column holds these arrays. */
  ghost predicate Filled(c: TensorArrayColumn, arrays: seq<seq<seq<Byte>>>, unit: nat)
    requires unit > 0
    reads c, c.heap, c.tensorHeap
  {
    && c.Valid() && c.unit == unit && |c.cells| == |arrays| && c.tensorHeap.Used() <= 2 * ArrayBytes(arrays)
    && c.values == KeptArrays(arrays, unit)
  }

  /** The column after storing some arrays, or null if one of them is refused. */
  method StoreArrays(arrays: seq<seq<seq<Byte>>>, unit: nat) returns (column: TensorArrayColumn?)
    requires unit > 0 && |arrays| <= ROWS && 2 * ArrayBytes(arrays) <= TENSOR_SPACE
    ensures column != null <==> forall i | 0 <= i < |arrays| :: ArrayStorable(arrays[i], unit)
    ensures column != null ==> Filled(column, arrays, unit)
  {
    var c := new TensorArrayColumn(unit);
    for i := 0 to |arrays|
      invariant fresh(c) && fresh(c.heap) && fresh(c.tensorHeap) && Filled(c, arrays[..i], unit)
      invariant forall k | 0 <= k < i :: ArrayStorable(arrays[k], unit)
    {
      var ok := StoreNth(c, arrays, i, unit);
      if !ok {
        return null;
      }
    }
    assert arrays[..|arrays|] == arrays;
    column := c;
  }

  method StoreNth(c: TensorArrayColumn, arrays: seq<seq<seq<Byte>>>, i: nat, unit: nat) returns (ok: bool)
    requires unit > 0 && i < |arrays| <= ROWS && 2 * ArrayBytes(arrays) <= TENSOR_SPACE
    requires Filled(c, arrays[..i], unit)
    modifies c, c.heap, c.tensorHeap
    ensures ok <==> ArrayStorable(arrays[i], unit)
    ensures ok ==> Filled(c, arrays[..i + 1], unit)
  {
    RoomForNext(arrays, i);
    assert arrays[..i + 1] == arrays[..i] + [arrays[i]];
    ok := StoreNext(c, arrays[..i], arrays[i], unit);
  }

  method StoreNext(c: TensorArrayColumn, ghost arrays: seq<seq<seq<Byte>>>, tensors: seq<seq<Byte>>, unit: nat)
    returns (ok: bool)
    requires unit > 0 && Filled(c, arrays, unit) && |arrays| < ROWS
    requires 2 * (ArrayBytes(arrays) + BytesOf(StoredPart(tensors))) <= TENSOR_SPACE
    modifies c, c.heap, c.tensorHeap
    ensures ok <==> ArrayStorable(tensors, unit)
    ensures ok ==> Filled(c, arrays + [tensors], unit)
  {
    OneMoreArray(arrays, tensors, unit);
    var error := c.Append(tensors);
    return error.None?;
  }

  lemma KeptArraysFacts(arrays: seq<seq<seq<Byte>>>, unit: nat)
    requires unit > 0 && forall i | 0 <= i < |arrays| :: ArrayStorable(arrays[i], unit)
    ensures EncodableArrays(KeptArrays(arrays, unit))
    ensures KeptArrays(arrays, unit) == arrays <==> forall i | 0 <= i < |arrays| :: WholeArray(arrays[i], unit)
  {
    forall i | 0 <= i < |arrays|
      ensures |KeptArray(arrays[i], unit)| < TWO32 && Encodable(KeptArray(arrays[i], unit))
      ensures KeptArrays(arrays, unit)[i] == arrays[i] <==> WholeArray(arrays[i], unit)
    {
      KeptArrayExactly(arrays[i], unit);
      var part := StoredPart(arrays[i]);
      forall j | 0 <= j < |part| ensures |KeptArray(arrays[i], unit)[j]| < TWO32 {
        assert Storable(part[j], unit);
        assert KeptArray(arrays[i], unit)[j] <= part[j];
      }
    }
  }

  /**
   The same for tensor arrays: those of a block are refused exactly if one of them is, and otherwise all of them
   come back, if the numbers of tensors and embeddings fit in 16 bits. The stored tensors of one block may have 64 GB.
   */
  method StoreSendParseArrays(arrays: seq<seq<seq<Byte>>>, unit: nat) returns (received: Option<seq<seq<seq<Byte>>>>)
    requires unit > 0 && |arrays| <= ROWS && 2 * ArrayBytes(arrays) <= TENSOR_SPACE
    requires |EncodedArrays(KeptArrays(arrays, unit))| < TWO31
    ensures received.Some? <==> forall i | 0 <= i < |arrays| :: ArrayStorable(arrays[i], unit)
    ensures received.Some? ==> received.value == KeptArrays(arrays, unit)
    ensures received.Some? ==>
      (received == Some(arrays) <==> forall i | 0 <= i < |arrays| :: WholeArray(arrays[i], unit))
  {
    var column := StoreArrays(arrays, unit);
    if column == null {
      return None;
    }
    KeptArraysFacts(arrays, unit);
    var dst := column.Encode();
    received := ParseArrays(dst[..]);
    ArrayRoundTrip(column.values);
  }

  /** 65537 tensors of one byte: the array is stored without an error, and one tensor comes back. */
  method LongArrayLost(tensors: seq<seq<Byte>>) returns (received: Option<seq<seq<seq<Byte>>>>)
    requires |tensors| == TWO16 + 1 && forall j | 0 <= j < |tensors| :: |tensors[j]| == 1
    ensures received == Some([[tensors[0]]])
  {
    LongArrayFacts(tensors);
    received := StoreSendParseArrays([tensors], 1);
  }

  lemma LongArrayFacts(tensors: seq<seq<Byte>>)
    requires |tensors| == TWO16 + 1 && forall j | 0 <= j < |tensors| :: |tensors[j]| == 1
    ensures ArrayStorable(tensors, 1) && ArrayBytes([tensors]) == 1
    ensures KeptArrays([tensors], 1) == [[tensors[0]]] && |EncodedArrays([[tensors[0]]])| == 9
  {
    var one := [tensors[0]];
    assert StoredPart(tensors) == one;
    KeptTensorsExactly(one, 1);
    assert one[..0] == [] && BytesOf(one) == BytesOf(one[..0]) + HeapBytes(one[0]);
    assert KeptArray(tensors, 1) == one && KeptArrays([tensors], 1) == [one];
    assert [tensors][..0] == [] && ArrayBytes([tensors]) == ArrayBytes([tensors][..0]) + BytesOf(StoredPart(tensors));
    ByOne(Entry, tensors[0]);
    ByOne(ArrayEntry, one);
  }
}
