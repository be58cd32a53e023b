/**
 Columns of strings, tensors and tensor arrays on their way to a client: the encoders of
 src/embedded_infinity/wrap_infinity.cpp measure the column, then write every value behind its
 length, and the parsers of python/infinity/remote_thrift/types.py take the bytes apart again.
 */
module ColumnEncoders {
  import opened Integers
  import opened Sequences
  import opened Wrappers
  import opened DataBlocks

  // ----- lengths -----

  /** The memory of a 32-bit integer, lowest byte first. */
  function Bytes4(n: nat): (r: seq<Byte>)
    ensures |r| == 4
  {
    [n % 256, n / 0x100 % 256, n / 0x1_0000 % 256, n / 0x100_0000 % 256]
  }

  function FromBytes4(b: seq<Byte>): nat
    requires |b| == 4
  {
    b[0] as int + 0x100 * b[1] as int + 0x1_0000 * b[2] as int + 0x100_0000 * b[3] as int
  }

  lemma Bytes4RoundTrip(n: nat)
    requires n < TWO32
    ensures FromBytes4(Bytes4(n)) == n
  {
    assert n / 0x1_0000 == n / 0x100 / 0x100 && n / 0x100_0000 == n / 0x1_0000 / 0x100;
  }

  // ----- the format -----

  /** Rows one after the other, each in its own encoding. */
  ghost function EncodedBy<T>(entry: T -> seq<Byte>, rows: seq<T>): seq<Byte> {
    Concat(seq(|rows|, i requires 0 <= i < |rows| => entry(rows[i])))
  }

  lemma ByAppend<T>(entry: T -> seq<Byte>, a: seq<T>, b: seq<T>)
    ensures EncodedBy(entry, a + b) == EncodedBy(entry, a) + EncodedBy(entry, b)
  {
    var all := a + b;
    var x := seq(|a|, i requires 0 <= i < |a| => entry(a[i]));
    var y := seq(|b|, i requires 0 <= i < |b| => entry(b[i]));
    assert seq(|all|, i requires 0 <= i < |all| => entry(all[i])) == x + y;
    ConcatAppend(x, y);
  }

  lemma ByOne<T>(entry: T -> seq<Byte>, row: T)
    ensures EncodedBy(entry, [row]) == entry(row)
  {
    assert seq(1, i requires 0 <= i < 1 => entry([row][i])) == [entry(row)];
    ConcatOne(entry(row));
  }

  lemma ByFirst<T>(entry: T -> seq<Byte>, rows: seq<T>)
    requires rows != []
    ensures EncodedBy(entry, rows) == entry(rows[0]) + EncodedBy(entry, rows[1..])
  {
    assert rows == [rows[0]] + rows[1..];
    ByAppend(entry, [rows[0]], rows[1..]);
    ByOne(entry, rows[0]);
  }

  lemma ByLast<T>(entry: T -> seq<Byte>, rows: seq<T>, n: nat)
    requires n < |rows|
    ensures EncodedBy(entry, rows[..n + 1]) == EncodedBy(entry, rows[..n]) + entry(rows[n])
    ensures |EncodedBy(entry, rows[..n + 1])| <= |EncodedBy(entry, rows)|
  {
    assert rows[..n + 1] == rows[..n] + [rows[n]];
    ByAppend(entry, rows[..n], [rows[n]]);
    ByOne(entry, rows[n]);
    assert rows == rows[..n + 1] + rows[n + 1..];
    ByAppend(entry, rows[..n + 1], rows[n + 1..]);
  }

  /** A value behind its length. */
  ghost function Entry(value: seq<Byte>): seq<Byte> {
    Bytes4(|value|) + value
  }

  /** Several values, each behind its length. */
  ghost function Encoded(values: seq<seq<Byte>>): seq<Byte> {
    EncodedBy(Entry, values)
  }

  /** Several values, each behind its length, all of them behind their number. */
  ghost function ArrayEntry(values: seq<seq<Byte>>): seq<Byte> {
    Bytes4(|values|) + Encoded(values)
  }

  ghost function EncodedArrays(rows: seq<seq<seq<Byte>>>): seq<Byte> {
    EncodedBy(ArrayEntry, rows)
  }

  /** A column sent in several blocks is the column sent in one. */
  lemma {:induction false} JoinedBlocks(blocks: seq<seq<seq<Byte>>>)
    ensures EncodedBy(Encoded, blocks) == Encoded(Concat(blocks))
  {
    if blocks == [] {
      assert EncodedBy(Encoded, blocks) == [] && Encoded(Concat(blocks)) == [];
    } else {
      var n := |blocks| - 1;
      JoinedBlocks(blocks[..n]);
      assert blocks[..n + 1] == blocks;
      ByLast(Encoded, blocks, n);
      ByAppend(Entry, Concat(blocks[..n]), blocks[n]);
    }
  }

  // ----- the client's parser -----

  /** The length that stands at `offset`. */
  function LengthAt(bytes: seq<Byte>, offset: nat): nat
    requires offset + 4 <= |bytes|
  {
    FromBytes4(bytes[offset..offset + 4])
  }

  /** What the parser makes of the bytes from `offset` on; None if a length is cut off. */
  ghost function Parsed(bytes: seq<Byte>, offset: nat): Option<seq<seq<Byte>>>
    decreases if offset < |bytes| then |bytes| - offset else 0
  {
    if offset >= |bytes| then Some([])
    else if offset + 4 > |bytes| then None
    else
      var from := offset + 4;
      var to := from + LengthAt(bytes, offset);
      var rest := Parsed(bytes, to);
      if rest.None? then None else Some([bytes[from..Min(|bytes|, to)]] + rest.value)
  }

  /** Values short enough for a 32-bit length. */
  ghost predicate Encodable(values: seq<seq<Byte>>) {
    forall i | 0 <= i < |values| :: |values[i]| < TWO32
  }

  /** A value stands at `offset`, behind its length. */
  ghost predicate IsAt(bytes: seq<Byte>, offset: nat, value: seq<Byte>) {
    && offset + 4 + |value| <= |bytes|
    && LengthAt(bytes, offset) == |value|
    && bytes[offset + 4..offset + 4 + |value|] == value
  }

  /** The bytes from `offset` to `end` are these values. */
  ghost predicate Laid(bytes: seq<Byte>, offset: nat, values: seq<seq<Byte>>, end: nat)
    decreases |values|
  {
    if values == [] then offset == end
    else IsAt(bytes, offset, values[0]) && Laid(bytes, offset + 4 + |values[0]|, values[1..], end)
  }

  lemma {:induction false} ParsedLaid(bytes: seq<Byte>, offset: nat, values: seq<seq<Byte>>)
    requires Laid(bytes, offset, values, |bytes|)
    ensures Parsed(bytes, offset) == Some(values)
    decreases |values|
  {
    if values != [] {
      ParsedLaid(bytes, offset + 4 + |values[0]|, values[1..]);
      assert values == [values[0]] + values[1..];
    }
  }

  lemma LengthRead(front: seq<Byte>, n: nat, back: seq<Byte>)
    requires n < TWO32
    ensures LengthAt(front + Bytes4(n) + back, |front|) == n
  {
    MiddlePart(front, Bytes4(n), back);
    Bytes4RoundTrip(n);
  }

  lemma ValueAt(front: seq<Byte>, value: seq<Byte>, back: seq<Byte>)
    requires |value| < TWO32
    ensures IsAt(front + Bytes4(|value|) + value + back, |front|, value)
  {
    Associate(front + Bytes4(|value|), value, back);
    LengthRead(front, |value|, value + back);
    MiddlePart(front + Bytes4(|value|), value, back);
  }

  /** Encoded values within more bytes. */
  lemma {:induction false} LaidWithin(bytes: seq<Byte>, front: seq<Byte>, values: seq<seq<Byte>>, back: seq<Byte>)
    requires Encodable(values) && bytes == front + Encoded(values) + back
    ensures Laid(bytes, |front|, values, |front| + |Encoded(values)|)
    decreases |values|
  {
    if values == [] {
      assert Encoded(values) == [];
    } else {
      var value, rest := values[0], values[1..];
      ByFirst(Entry, values);
      RegroupFive(front, Bytes4(|value|), value, Encoded(rest), back);
      ValueAt(front, value, Encoded(rest) + back);
      LaidWithin(bytes, front + Bytes4(|value|) + value, rest, back);
    }
  }

  /** The client gets exactly the values of the column. */
  lemma ColumnRoundTrip(values: seq<seq<Byte>>)
    requires Encodable(values)
    ensures Parsed(Encoded(values), 0) == Some(values)
  {
    assert Encoded(values) == [] + Encoded(values) + [];
    LaidWithin(Encoded(values), [], values, []);
    ParsedLaid(Encoded(values), 0, values);
  }

  // ----- arrays of values -----

  /** `n` values from `offset` on, and where they end. */
  ghost function ParsedSome(bytes: seq<Byte>, offset: nat, n: nat): (r: Option<(seq<seq<Byte>>, nat)>)
    ensures r.Some? ==> r.value.1 >= offset
    decreases n
  {
    if n == 0 then Some(([], offset))
    else if offset + 4 > |bytes| then None
    else
      var from := offset + 4;
      var to := from + LengthAt(bytes, offset);
      var rest := ParsedSome(bytes, to, n - 1);
      if rest.None? then None
      else Some(([bytes[from..Min(|bytes|, to)]] + rest.value.0, rest.value.1))
  }

  ghost function ParsedArrays(bytes: seq<Byte>, offset: nat): Option<seq<seq<seq<Byte>>>>
    decreases if offset < |bytes| then |bytes| - offset else 0
  {
    if offset >= |bytes| then Some([])
    else if offset + 4 > |bytes| then None
    else
      var row := ParsedSome(bytes, offset + 4, LengthAt(bytes, offset));
      if row.None? then None
      else
        var rest := ParsedArrays(bytes, row.value.1);
        if rest.None? then None else Some([row.value.0] + rest.value)
  }

  lemma {:induction false} ParsedSomeLaid(bytes: seq<Byte>, offset: nat, values: seq<seq<Byte>>, end: nat)
    requires Laid(bytes, offset, values, end)
    ensures ParsedSome(bytes, offset, |values|) == Some((values, end))
    decreases |values|
  {
    if values != [] {
      ParsedSomeLaid(bytes, offset + 4 + |values[0]|, values[1..], end);
      assert values == [values[0]] + values[1..];
    }
  }

  /** The bytes from `offset` on are these arrays. */
  ghost predicate LaidArrays(bytes: seq<Byte>, offset: nat, rows: seq<seq<seq<Byte>>>)
    decreases |rows|
  {
    if rows == [] then offset == |bytes|
    else
      var end := offset + |ArrayEntry(rows[0])|;
      && offset + 4 <= |bytes| && LengthAt(bytes, offset) == |rows[0]|
      && Laid(bytes, offset + 4, rows[0], end)
      && LaidArrays(bytes, end, rows[1..])
  }

  lemma {:induction false} ParsedArraysLaid(bytes: seq<Byte>, offset: nat, rows: seq<seq<seq<Byte>>>)
    requires LaidArrays(bytes, offset, rows)
    ensures ParsedArrays(bytes, offset) == Some(rows)
    decreases |rows|
  {
    if rows != [] {
      var end := offset + |ArrayEntry(rows[0])|;
      ParsedSomeLaid(bytes, offset + 4, rows[0], end);
      ParsedArraysLaid(bytes, end, rows[1..]);
      assert rows == [rows[0]] + rows[1..];
    }
  }

  ghost predicate EncodableArrays(rows: seq<seq<seq<Byte>>>) {
    forall i | 0 <= i < |rows| :: |rows[i]| < TWO32 && Encodable(rows[i])
  }

  /** One array within more bytes. */
  lemma ArrayAt(bytes: seq<Byte>, front: seq<Byte>, row: seq<seq<Byte>>, back: seq<Byte>)
    requires |row| < TWO32 && Encodable(row) && bytes == front + ArrayEntry(row) + back
    ensures LengthAt(bytes, |front|) == |row|
    ensures Laid(bytes, |front| + 4, row, |front| + |ArrayEntry(row)|)
  {
    RegroupFour(front, Bytes4(|row|), Encoded(row), back);
    LengthRead(front, |row|, Encoded(row) + back);
    LaidWithin(bytes, front + Bytes4(|row|), row, back);
  }

  lemma {:induction false} ArraysLaid(front: seq<Byte>, rows: seq<seq<seq<Byte>>>)
    requires EncodableArrays(rows)
    ensures LaidArrays(front + EncodedArrays(rows), |front|, rows)
    decreases |rows|
  {
    if rows == [] {
      assert EncodedArrays(rows) == [];
    } else {
      var row, rest := rows[0], rows[1..];
      ByFirst(ArrayEntry, rows);
      Associate(front, ArrayEntry(row), EncodedArrays(rest));
      ArrayAt(front + EncodedArrays(rows), front, row, EncodedArrays(rest));
      ArraysLaid(front + ArrayEntry(row), rest);
    }
  }

  /** The client gets exactly the arrays of the column. */
  lemma ArrayRoundTrip(rows: seq<seq<seq<Byte>>>)
    requires EncodableArrays(rows)
    ensures ParsedArrays(EncodedArrays(rows), 0) == Some(rows)
  {
    ArraysLaid([], rows);
    assert [] + EncodedArrays(rows) == EncodedArrays(rows);
    ParsedArraysLaid(EncodedArrays(rows), 0, rows);
  }

  // ----- the parsing loops -----

  /** `parse_bytes` and, up to the reading of the numbers, `parse_tensor_bytes`. */
  method ParseBytes(bytes: seq<Byte>) returns (r: Option<seq<seq<Byte>>>)
    ensures r == Parsed(bytes, 0)
  {
    var results: seq<seq<Byte>> := [];
    var offset: nat := 0;
    AfterNone(Parsed(bytes, 0));
    while offset < |bytes|
      invariant After(results, Parsed(bytes, offset)) == Parsed(bytes, 0)
      decreases |bytes| - offset
    {
      if offset + 4 > |bytes| {
        return None;
      }
      var from := offset + 4;
      var to := from + LengthAt(bytes, offset);
      var value := bytes[from..Min(|bytes|, to)];
      AfterOne(results, value, Parsed(bytes, to));
      results := results + [value];
      offset := to;
    }
    assert results + [] == results;
    return Some(results);
  }

  /** The inner loop of `parse_tensorarray_bytes`. */
  method ParseSome(bytes: seq<Byte>, start: nat, n: nat) returns (r: Option<(seq<seq<Byte>>, nat)>)
    ensures r == ParsedSome(bytes, start, n)
  {
    var results: seq<seq<Byte>> := [];
    var offset: nat := start;
    ghost var whole := ParsedSome(bytes, start, n);
    assert whole.Some? ==> [] + whole.value.0 == whole.value.0;
    for i := 0 to n
      invariant var rest := ParsedSome(bytes, offset, n - i);
        whole == if rest.None? then None else Some((results + rest.value.0, rest.value.1))
    {
      if offset + 4 > |bytes| {
        return None;
      }
      var from := offset + 4;
      var to := from + LengthAt(bytes, offset);
      var value := bytes[from..Min(|bytes|, to)];
      ghost var rest := ParsedSome(bytes, to, n - i - 1);
      if rest.Some? {
        assert results + ([value] + rest.value.0) == results + [value] + rest.value.0;
      }
      results := results + [value];
      offset := to;
    }
    assert results + [] == results;
    return Some((results, offset));
  }

  /** `parse_tensorarray_bytes`, up to the reading of the numbers. */
  method ParseArrays(bytes: seq<Byte>) returns (r: Option<seq<seq<seq<Byte>>>>)
    ensures r == ParsedArrays(bytes, 0)
  {
    var results: seq<seq<seq<Byte>>> := [];
    var offset: nat := 0;
    AfterNone(ParsedArrays(bytes, 0));
    while offset < |bytes|
      invariant After(results, ParsedArrays(bytes, offset)) == ParsedArrays(bytes, 0)
      decreases |bytes| - offset
    {
      if offset + 4 > |bytes| {
        return None;
      }
      var row := ParseSome(bytes, offset + 4, LengthAt(bytes, offset));
      if row.None? {
        return None;
      }
      AfterOne(results, row.value.0, ParsedArrays(bytes, row.value.1));
      results := results + [row.value.0];
      offset := row.value.1;
    }
    assert results + [] == results;
    return Some(results);
  }
}
