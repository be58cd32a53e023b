/**
 Columns of strings and of tensors, whose values live in a heap, from storing a value
 (src/storage/column_vector/column_vector.cpp) to sending the column (src/embedded_infinity/wrap_infinity.cpp).
 */
module Columns {
  import opened Integers
  import opened Sequences
  import opened Wrappers
  import opened FixHeap
  import opened ColumnEncoders

  /** The rows of a block. */
  const ROWS: nat := 8192
  const STRING_CHUNK: nat := 65536
  const TENSOR_CHUNK: nat := 512 * 1024 * 4

  datatype ColumnError = Full | WrongSize | DoesNotFit | NoTensors

  // ----- the output buffer -----

  method CopyBytes(dst: array<Byte>, at: nat, data: seq<Byte>)
    requires at + |data| <= dst.Length
    modifies dst
    ensures dst[..at + |data|] == old(dst[..at]) + data
  {
    forall i | 0 <= i < |data| {
      dst[at + i] := data[i];
    }
  }

  /** A length and the value behind it. */
  method CopyEntry(dst: array<Byte>, at: nat, value: seq<Byte>) returns (next: nat)
    requires at + 4 + |value| <= dst.Length && |value| < TWO31
    modifies dst
    ensures next == at + |Entry(value)| && dst[..next] == old(dst[..at]) + Entry(value)
  {
    CopyBytes(dst, at, Bytes4(|value|));
    CopyBytes(dst, at + 4, value);
    next := at + 4 + |value|;
  }

  // ----- strings -----

  const VARCHAR_PREFIX_LENGTH := 5
  const VARCHAR_INLINE_LENGTH := 13
  /** The length of a cell has 23 bits. */
  const VARCHAR_LENGTH_LIMIT := 8 * 1024 * 1024

  /** The string itself, or its first bytes and the place of all of them in the heap. */
  datatype Varchar = Short(length: nat, data: seq<Byte>) | Long(length: nat, prefix: seq<Byte>, chunk: nat, offset: nat)

  /** The bytes that a reader of a short string takes for the string; the two kinds of cell share their memory. */
  function InlineBytes(cell: Varchar): seq<Byte> {
    match cell
    case Short(_, data) => data
    case Long(_, prefix, chunk, offset) => prefix + Bytes4(chunk) + Bytes4(offset)
  }

  /** What a reader gets for a stored string: the length is cut to 23 bits, and the cut decides where to read. */
  ghost predicate Kept(data: seq<Byte>, kept: seq<Byte>) {
    && |kept| == |data| % VARCHAR_LENGTH_LIMIT
    && (|data| <= VARCHAR_INLINE_LENGTH || |kept| > VARCHAR_INLINE_LENGTH ==> kept == data[..|kept|])
  }

  /** A string comes back exactly if it is shorter than 8 MB. */
  lemma KeptExactly(data: seq<Byte>, kept: seq<Byte>)
    requires Kept(data, kept)
    ensures kept == data <==> |data| < VARCHAR_LENGTH_LIMIT
  {
    if |data| < VARCHAR_LENGTH_LIMIT {
      assert data[..|data|] == data;
    }
  }

  /** A string of exactly 8 MB comes back empty. */
  lemma LongStringLost(data: seq<Byte>, kept: seq<Byte>)
    requires |data| == VARCHAR_LENGTH_LIMIT && Kept(data, kept)
    ensures kept == []
  {
  }

  /** The bytes at this place start with `value`. */
  ghost predicate Places(chunk: nat, offset: nat, stored: seq<Stored>, value: seq<Byte>) {
    exists data :: value <= data && Stored(chunk, offset, data) in stored
  }

  lemma StillPlaced(chunk: nat, offset: nat, before: seq<Stored>, stored: seq<Stored>, value: seq<Byte>)
    requires before <= stored && Places(chunk, offset, before, value)
    ensures Places(chunk, offset, stored, value)
  {
    var data :| value <= data && Stored(chunk, offset, data) in before;
    assert Stored(chunk, offset, data) in stored;
  }

  /** Where the bytes of a value can be read. */
  lemma PlacedAt(heap: FixHeapManager, chunk: nat, offset: nat, value: seq<Byte>)
    requires heap.Valid() && Places(chunk, offset, heap.stored, value)
    ensures chunk < |heap.chunks| && offset <= heap.chunkSize
    ensures !heap.acrossChunks ==> offset + |value| <= heap.chunkSize
    ensures BytesAt(heap.chunks, chunk, offset, |value|) == Some(value)
  {
    var data :| value <= data && Stored(chunk, offset, data) in heap.stored;
    heap.StoredAt(Stored(chunk, offset, data));
    FirstBytes(heap.chunks, chunk, offset, data, |value|);
    assert data[..|value|] == value;
  }

  /** Reading the cell gives `value`. */
  ghost predicate Holds(cell: Varchar, value: seq<Byte>, stored: seq<Stored>) {
    && cell.length == |value|
    && if cell.length <= VARCHAR_INLINE_LENGTH
       then |InlineBytes(cell)| >= |value| && value == InlineBytes(cell)[..|value|]
       else cell.Long? && Places(cell.chunk, cell.offset, stored, value)
  }

  ghost predicate AllHold(cells: seq<Varchar>, values: seq<seq<Byte>>, stored: seq<Stored>) {
    |cells| == |values| && forall i | 0 <= i < |cells| :: Holds(cells[i], values[i], stored)
  }

  lemma OneMoreHeld(cells: seq<Varchar>, values: seq<seq<Byte>>, before: seq<Stored>, cell: Varchar, value: seq<Byte>,
                    stored: seq<Stored>)
    requires AllHold(cells, values, before) && before <= stored && Holds(cell, value, stored)
    ensures AllHold(cells + [cell], values + [value], stored)
  {
    forall i | 0 <= i < |cells|
      ensures Holds(cells[i], values[i], stored)
    {
      if cells[i].length > VARCHAR_INLINE_LENGTH {
        StillPlaced(cells[i].chunk, cells[i].offset, before, stored, values[i]);
      }
    }
  }

  class VarcharColumn {
    const heap: FixHeapManager
    var cells: seq<Varchar>
    /** What is read for each row. */
    ghost var values: seq<seq<Byte>>

    ghost predicate Valid()
      reads this, heap
    {
      heap.Valid() && heap.acrossChunks && |cells| <= ROWS && AllHold(cells, values, heap.stored)
    }

    constructor ()
      ensures Valid() && values == [] && fresh(heap)
    {
      heap := new FixHeapManager(STRING_CHUNK, true);
      cells, values := [], [];
    }

    /** The cell of a string; the length is cut to 23 bits. */
    method MakeCell(data: seq<Byte>) returns (cell: Varchar, ghost kept: seq<Byte>)
      requires heap.Valid() && heap.acrossChunks
      modifies heap
      ensures heap.Valid() && old(heap.stored) <= heap.stored
      ensures Holds(cell, kept, heap.stored) && Kept(data, kept)
    {
      var length := |data| % VARCHAR_LENGTH_LIMIT;
      if |data| <= VARCHAR_INLINE_LENGTH {
        assert data[..|data|] == data;
        return Short(length, data), data;
      }
      var place := heap.AppendToHeap(data);
      cell := Long(length, data[..VARCHAR_PREFIX_LENGTH], place.value.0, place.value.1);
      if length <= VARCHAR_INLINE_LENGTH {
        kept := InlineBytes(cell)[..length];
      } else {
        kept := data[..length];
        assert Stored(cell.chunk, cell.offset, data) in heap.stored;
      }
    }

    /** Stores a string; the column then holds it behind the others. */
    method Append(data: seq<Byte>) returns (error: Option<ColumnError>)
      requires Valid()
      modifies this, heap
      ensures Valid() && (error.None? <==> old(|cells|) < ROWS)
      ensures error.Some? ==> values == old(values)
      ensures error.None? ==> exists kept :: Kept(data, kept) && values == old(values) + [kept]
    {
      if |cells| >= ROWS {
        return Some(Full);
      }
      var cell, kept := MakeCell(data);
      OneMoreHeld(cells, values, old(heap.stored), cell, kept, heap.stored);
      cells, values := cells + [cell], values + [kept];
      return None;
    }

    /** The bytes of one string. */
    method Read(i: nat) returns (data: seq<Byte>)
      requires Valid() && i < |cells|
      ensures data == values[i]
    {
      var cell := cells[i];
      assert Holds(cell, values[i], heap.stored);
      if cell.length <= VARCHAR_INLINE_LENGTH {
        return InlineBytes(cell)[..cell.length];
      }
      PlacedAt(heap, cell.chunk, cell.offset, values[i]);
      var r := heap.ReadFromHeap(cell.chunk, cell.offset, cell.length);
      return r.value;
    }

    /** `HandleVarcharType`: measures the column, then fills exactly as many bytes. */
    method Encode() returns (dst: array<Byte>)
      requires Valid() && |Encoded(values)| < TWO31
      ensures fresh(dst) && dst[..] == Encoded(values)
    {
      var total := 0;
      for i := 0 to |cells|
        invariant total + 4 * i == |Encoded(values[..i])|
      {
        ByLast(Entry, values, i);
        assert Holds(cells[i], values[i], heap.stored);
        total := total + cells[i].length;
      }
      assert values[..|cells|] == values;
      dst := new Byte[total + |cells| * 4];
      var at := 0;
      for i := 0 to |cells|
        invariant at == |Encoded(values[..i])| && at <= dst.Length && dst[..at] == Encoded(values[..i])
      {
        ByLast(Entry, values, i);
        var data := Read(i);
        at := CopyEntry(dst, at, data);
      }
      assert dst[..dst.Length] == dst[..];
    }
  }

  /** Shorter values have a shorter encoding. */
  lemma {:induction false} EncodedShorter(a: seq<seq<Byte>>, b: seq<seq<Byte>>, n: nat)
    requires n <= |a| == |b| && forall i | 0 <= i < |a| :: |a[i]| <= |b[i]|
    ensures |Encoded(a[..n])| <= |Encoded(b[..n])|
  {
    if n > 0 {
      EncodedShorter(a, b, n - 1);
      ByLast(Entry, a, n - 1);
      ByLast(Entry, b, n - 1);
    }
  }

  ghost predicate AllKept(strings: seq<seq<Byte>>, kept: seq<seq<Byte>>) {
    |kept| == |strings| && forall i | 0 <= i < |strings| :: Kept(strings[i], kept[i])
  }

  lemma AllKeptExactly(strings: seq<seq<Byte>>, kept: seq<seq<Byte>>)
    requires AllKept(strings, kept)
    ensures kept == strings <==> forall i | 0 <= i < |strings| :: |strings[i]| < VARCHAR_LENGTH_LIMIT
  {
    forall i | 0 <= i < |strings| ensures kept[i] == strings[i] <==> |strings[i]| < VARCHAR_LENGTH_LIMIT {
      KeptExactly(strings[i], kept[i]);
    }
  }

  /**
   From the server's column to the client's list: storing, sending and parsing the strings of a block gives
   every string back that is shorter than 8 MB, and no other.
   */
  method StoreSendParse(strings: seq<seq<Byte>>) returns (received: Option<seq<seq<Byte>>>)
    requires |strings| <= ROWS && |Encoded(strings)| < TWO31
    ensures received.Some? && AllKept(strings, received.value)
    ensures received == Some(strings) <==> forall i | 0 <= i < |strings| :: |strings[i]| < VARCHAR_LENGTH_LIMIT
  {
    var column := StoreStrings(strings);
    ShorterKept(strings, column.values);
    var dst := column.Encode();
    received := ParseBytes(dst[..]);
    ColumnRoundTrip(column.values);
    AllKeptExactly(strings, column.values);
  }

  method StoreStrings(strings: seq<seq<Byte>>) returns (column: VarcharColumn)
    requires |strings| <= ROWS
    ensures column.Valid() && AllKept(strings, column.values)
  {
    column := new VarcharColumn();
    for i := 0 to |strings|
      invariant column.Valid() && fresh(column) && fresh(column.heap)
      invariant AllKept(strings[..i], column.values) && |column.cells| == i
    {
      var error := column.Append(strings[i]);
      ghost var kept :| Kept(strings[i], kept) && column.values == column.values[..i] + [kept];
    }
    assert strings[..|strings|] == strings;
  }

  lemma ShorterKept(strings: seq<seq<Byte>>, kept: seq<seq<Byte>>)
    requires AllKept(strings, kept)
    ensures |Encoded(kept)| <= |Encoded(strings)|
  {
    forall i | 0 <= i < |strings| ensures |kept[i]| <= |strings[i]| {
      assert Kept(strings[i], kept[i]);
    }
    EncodedShorter(kept, strings, |strings|);
    assert kept[..|strings|] == kept && strings[..|strings|] == strings;
  }

  // ----- tensors -----

  /** How many embeddings, in 16 bits, and the place of their bytes. */
  datatype Tensor = Tensor(embeddingNum: nat, chunk: nat, offset: nat)

  ghost predicate InRange(cell: Tensor) {
    cell.embeddingNum < TWO16 && cell.chunk < TWO16 && cell.offset < TWO32
  }

  /** Whole embeddings that fit a chunk. */
  ghost predicate Storable(data: seq<Byte>, unit: nat)
    requires unit > 0
  {
    data != [] && |data| % unit == 0 && |data| <= TENSOR_CHUNK
  }

  /** What is read for a stored tensor. */
  ghost function KeptTensor(data: seq<Byte>, unit: nat): (kept: seq<Byte>)
    requires unit > 0
    ensures kept <= data
  {
    KeptFits(|data| / unit, unit, |data|);
    data[..|data| / unit % TWO16 * unit]
  }

  lemma KeptFits(n: nat, unit: nat, size: nat)
    requires n * unit <= size
    ensures 0 <= n % TWO16 * unit <= size
  {
    assert n % TWO16 <= n;
    assert n % TWO16 * unit <= n * unit;
  }

  /** A tensor comes back exactly if it has fewer than 65536 embeddings. */
  lemma KeptTensorExactly(data: seq<Byte>, unit: nat)
    requires unit > 0 && |data| % unit == 0
    ensures KeptTensor(data, unit) == data <==> |data| / unit < TWO16
  {
    var n := |data| / unit;
    assert n * unit == |data|;
    if n < TWO16 {
      assert data[..|data|] == data;
    } else {
      assert n % TWO16 < n;
      assert n % TWO16 * unit < n * unit;
    }
  }

  /** A tensor of 65536 embeddings of one byte is stored without an error and comes back empty. */
  lemma LongTensorLost(data: seq<Byte>)
    requires |data| == TWO16
    ensures Storable(data, 1) && KeptTensor(data, 1) == []
  {
  }

  /** The cell tells where the tensor is. */
  ghost predicate Locates(cell: Tensor, unit: nat, stored: seq<Stored>, value: seq<Byte>) {
    cell.embeddingNum * unit == |value| && Places(cell.chunk, cell.offset, stored, value)
  }

  ghost predicate AllLocated(cells: seq<Tensor>, unit: nat, stored: seq<Stored>, values: seq<seq<Byte>>) {
    |cells| == |values| && forall i | 0 <= i < |cells| :: Locates(cells[i], unit, stored, values[i])
  }

  lemma StillLocated(cells: seq<Tensor>, unit: nat, before: seq<Stored>, stored: seq<Stored>, values: seq<seq<Byte>>)
    requires AllLocated(cells, unit, before, values) && before <= stored
    ensures AllLocated(cells, unit, stored, values)
  {
    forall i | 0 <= i < |cells| ensures Locates(cells[i], unit, stored, values[i]) {
      StillPlaced(cells[i].chunk, cells[i].offset, before, stored, values[i]);
    }
  }

  ghost predicate TensorHeap(heap: FixHeapManager)
    reads heap
  {
    heap.Valid() && !heap.acrossChunks && heap.chunkSize == TENSOR_CHUNK
  }

  function TensorCell(data: seq<Byte>, unit: nat, chunk: nat, offset: nat): Tensor
    requires unit > 0
  {
    Tensor(|data| / unit % TWO16, chunk % TWO16, offset % TWO32)
  }

  lemma CellLocates(s: Stored, unit: nat, stored: seq<Stored>)
    requires unit > 0 && |s.data| % unit == 0 && s in stored && s.chunk < TWO16 && s.offset < TWO32
    ensures var cell := TensorCell(s.data, unit, s.chunk, s.offset);
      InRange(cell) && Locates(cell, unit, stored, KeptTensor(s.data, unit))
  {
    var n := |s.data| / unit % TWO16;
    KeptFits(|s.data| / unit, unit, |s.data|);
    assert |KeptTensor(s.data, unit)| == n * unit;
    assert s == Stored(s.chunk, s.offset, s.data);
    assert Places(s.chunk, s.offset, stored, KeptTensor(s.data, unit));
  }

  /** What 65536 chunks of tensors hold. */
  const TENSOR_SPACE: nat := TWO16 * TENSOR_CHUNK

  /** The bytes of a tensor that go into the heap: none if it is refused. */
  ghost function HeapBytes(data: seq<Byte>): nat {
    if |data| <= TENSOR_CHUNK then |data| else 0
  }

  /**
   Puts a tensor into the heap; its cell has 16 bits for the number of embeddings and for the chunk. A chunk is left
   with fewer free bytes than the tensor has, so a tensor takes at most twice its size.
   */
  method StoreTensor(heap: FixHeapManager, unit: nat, data: seq<Byte>) returns (r: Result<Tensor, ColumnError>)
    requires TensorHeap(heap) && unit > 0 && heap.Used() + 2 * HeapBytes(data) <= TENSOR_SPACE
    modifies heap
    ensures TensorHeap(heap) && heap.Used() <= old(heap.Used()) + 2 * HeapBytes(data) && old(heap.stored) <= heap.stored
    ensures r.Success? <==> Storable(data, unit)
    ensures r.Success? ==> InRange(r.value) && Locates(r.value, unit, heap.stored, KeptTensor(data, unit))
  {
    if |data| == 0 || |data| % unit != 0 {
      return Failure(WrongSize);
    }
    var place := heap.AppendToHeap(data);
    if place.Failure? {
      return Failure(DoesNotFit);
    }
    ghost var s := Stored(place.value.0, place.value.1, data);
    assert s in heap.stored;
    heap.AmongFirst(s, TWO16);
    CellLocates(s, unit, heap.stored);
    return Success(TensorCell(data, unit, place.value.0, place.value.1));
  }

  method CopyTensor(dst: array<Byte>, at: nat, cell: Tensor, unit: nat, heap: FixHeapManager, ghost value: seq<Byte>)
    returns (next: nat)
    requires TensorHeap(heap) && Locates(cell, unit, heap.stored, value)
    requires at + |Entry(value)| <= dst.Length && |value| < TWO31
    modifies dst
    ensures next == at + |Entry(value)| && dst[..next] == old(dst[..at]) + Entry(value)
  {
    PlacedAt(heap, cell.chunk, cell.offset, value);
    var data := heap.ReadRaw(cell.chunk, cell.offset, cell.embeddingNum * unit);
    next := CopyEntry(dst, at, data);
  }

  /** Tensors one after the other. */
  method CopyTensors(dst: array<Byte>, at0: nat, cells: seq<Tensor>, unit: nat, heap: FixHeapManager,
                     ghost values: seq<seq<Byte>>)
    returns (at: nat)
    requires TensorHeap(heap) && AllLocated(cells, unit, heap.stored, values)
    requires at0 + |Encoded(values)| <= dst.Length < TWO31
    modifies dst
    ensures at == at0 + |Encoded(values)| && dst[..at] == old(dst[..at0]) + Encoded(values)
  {
    ghost var base := dst[..at0];
    at := at0;
    assert Encoded(values[..0]) == [];
    for i := 0 to |cells|
      invariant at == at0 + |Encoded(values[..i])| <= dst.Length && dst[..at] == base + Encoded(values[..i])
    {
      ByLast(Entry, values, i);
      assert Locates(cells[i], unit, heap.stored, values[i]);
      at := CopyTensor(dst, at, cells[i], unit, heap, values[i]);
      Associate(base, Encoded(values[..i]), Entry(values[i]));
    }
    assert values[..|cells|] == values;
  }

  lemma OneMoreTensor(n: nat, more: nat, unit: nat, i: nat, size: nat, length: nat)
    requires n * unit + 4 * i == size && more * unit == length
    ensures (n + more) * unit + 4 * (i + 1) == size + 4 + length
  {
    assert (n + more) * unit == n * unit + more * unit;
  }

  class TensorColumn {
    /** The bytes of one embedding. */
    const unit: nat
    const heap: FixHeapManager
    var cells: seq<Tensor>
    /** What is read for each row. */
    ghost var values: seq<seq<Byte>>

    ghost predicate Valid()
      reads this, heap
    {
      && unit > 0 && TensorHeap(heap) && |cells| <= ROWS && heap.Used() <= 2 * TENSOR_CHUNK * |cells|
      && AllLocated(cells, unit, heap.stored, values)
    }

    constructor (unit: nat)
      requires unit > 0
      ensures Valid() && values == [] && fresh(heap) && this.unit == unit
    {
      this.unit := unit;
      heap := new FixHeapManager(TENSOR_CHUNK, false);
      cells, values := [], [];
    }

    /** Stores a tensor of whole embeddings that fits a chunk. */
    method Append(data: seq<Byte>) returns (error: Option<ColumnError>)
      requires Valid()
      modifies this, heap
      ensures error.None? ==> Valid()
      ensures error.None? <==> old(|cells|) < ROWS && Storable(data, unit)
      ensures values == if error.None? then old(values) + [KeptTensor(data, unit)] else old(values)
    {
      if |cells| >= ROWS {
        return Some(Full);
      }
      var r := StoreTensor(heap, unit, data);
      if r.Failure? {
        return Some(r.error);
      }
      StillLocated(cells, unit, old(heap.stored), heap.stored, values);
      cells, values := cells + [r.value], values + [KeptTensor(data, unit)];
      return None;
    }

    method CountEmbeddings() returns (n: nat)
      requires Valid()
      ensures n * unit + 4 * |cells| == |Encoded(values)|
    {
      n := 0;
      for i := 0 to |cells|
        invariant n * unit + 4 * i == |Encoded(values[..i])|
      {
        ByLast(Entry, values, i);
        assert Locates(cells[i], unit, heap.stored, values[i]);
        OneMoreTensor(n, cells[i].embeddingNum, unit, i, |Encoded(values[..i])|, |values[i]|);
        n := n + cells[i].embeddingNum;
      }
      assert values[..|cells|] == values;
    }

    /** `HandleTensorType`. */
    method Encode() returns (dst: array<Byte>)
      requires Valid() && |Encoded(values)| < TWO31
      ensures fresh(dst) && dst[..] == Encoded(values)
    {
      var embeddings := CountEmbeddings();
      dst := new Byte[embeddings * unit + |cells| * 4];
      var at := CopyTensors(dst, 0, cells, unit, heap, values);
      assert dst[..dst.Length] == dst[..] && dst[..0] == [];
    }
  }

  ghost function KeptTensors(tensors: seq<seq<Byte>>, unit: nat): (kept: seq<seq<Byte>>)
    requires unit > 0
    ensures |kept| == |tensors|
  {
    seq(|tensors|, i requires 0 <= i < |tensors| => KeptTensor(tensors[i], unit))
  }

  lemma KeptTensorsExactly(tensors: seq<seq<Byte>>, unit: nat)
    requires unit > 0 && forall i | 0 <= i < |tensors| :: |tensors[i]| % unit == 0
    ensures KeptTensors(tensors, unit) == tensors <==> forall i | 0 <= i < |tensors| :: |tensors[i]| / unit < TWO16
  {
    forall i | 0 <= i < |tensors|
      ensures KeptTensors(tensors, unit)[i] == tensors[i] <==> |tensors[i]| / unit < TWO16
    {
      KeptTensorExactly(tensors[i], unit);
    }
  }

  /**
   The same for tensors: the tensors of a block are refused exactly if one of them is, and otherwise all of them come
   back, if each has fewer than 65536 embeddings.
   */
  method StoreSendParseTensors(tensors: seq<seq<Byte>>, unit: nat) returns (received: Option<seq<seq<Byte>>>)
    requires unit > 0 && |tensors| <= ROWS && |Encoded(tensors)| < TWO31
    ensures received.Some? <==> forall i | 0 <= i < |tensors| :: Storable(tensors[i], unit)
    ensures received.Some? ==> received.value == KeptTensors(tensors, unit)
    ensures received.Some? ==>
      (received == Some(tensors) <==> forall i | 0 <= i < |tensors| :: |tensors[i]| / unit < TWO16)
  {
    var column := StoreTensors(tensors, unit);
    if column == null {
      return None;
    }
    ShorterTensors(tensors, unit);
    KeptTensorsExactly(tensors, unit);
    var dst := column.Encode();
    received := ParseBytes(dst[..]);
    ColumnRoundTrip(column.values);
  }

  /** The column holds these tensors. */
  ghost predicate Filled(c: TensorColumn, tensors: seq<seq<Byte>>, unit: nat)
    requires unit > 0
    reads c, c.heap
  {
    c.Valid() && c.unit == unit && |c.cells| == |tensors| && c.values == KeptTensors(tensors, unit)
  }

  /** The column after storing the tensors, or null if one of them is refused. */
  method StoreTensors(tensors: seq<seq<Byte>>, unit: nat) returns (column: TensorColumn?)
    requires unit > 0 && |tensors| <= ROWS
    ensures column != null <==> forall i | 0 <= i < |tensors| :: Storable(tensors[i], unit)
    ensures column != null ==> Filled(column, tensors, unit)
  {
    var c := new TensorColumn(unit);
    for i := 0 to |tensors|
      invariant fresh(c) && fresh(c.heap) && Filled(c, tensors[..i], unit)
      invariant forall k | 0 <= k < i :: Storable(tensors[k], unit)
    {
      var ok := StoreNext(c, tensors[..i], tensors[i], unit);
      if !ok {
        return null;
      }
      assert tensors[..i + 1] == tensors[..i] + [tensors[i]];
    }
    assert tensors[..|tensors|] == tensors;
    column := c;
  }

  method StoreNext(c: TensorColumn, ghost tensors: seq<seq<Byte>>, data: seq<Byte>, unit: nat) returns (ok: bool)
    requires unit > 0 && Filled(c, tensors, unit) && |tensors| < ROWS
    modifies c, c.heap
    ensures ok <==> Storable(data, unit)
    ensures ok ==> Filled(c, tensors + [data], unit)
  {
    OneMoreKept(tensors, data, unit);
    var error := c.Append(data);
    return error.None?;
  }

  lemma OneMoreKept(tensors: seq<seq<Byte>>, data: seq<Byte>, unit: nat)
    requires unit > 0
    ensures KeptTensors(tensors + [data], unit) == KeptTensors(tensors, unit) + [KeptTensor(data, unit)]
  {
  }

  lemma ShorterTensors(tensors: seq<seq<Byte>>, unit: nat)
    requires unit > 0
    ensures |Encoded(KeptTensors(tensors, unit))| <= |Encoded(tensors)|
  {
    var kept := KeptTensors(tensors, unit);
    EncodedShorter(kept, tensors, |tensors|);
    assert kept[..|tensors|] == kept && tensors[..|tensors|] == tensors;
  }
}
