/**
 src/network/buffer_reader.cpp: fixed-width integers and fixed-length strings read from a
 socket through a ring buffer. The null-terminated `read_string()` is left out.
 */
module BufferReader {
  import opened Integers
  import opened Sequences
  import opened Wrappers

  const SIZE: nat := 4096
  const CAPACITY: nat := SIZE - 1

  datatype Error = ClientClose | IOError

  /** Position `i` places after `pos` in the ring. */
  function Wrap(pos: nat, i: nat): (r: nat)
    ensures r < SIZE
  {
    (pos + i) % SIZE
  }

  /** The `n` bytes from position `pos` on. */
  ghost function Ring(data: seq<Byte>, pos: nat, n: nat): (r: seq<Byte>)
    requires |data| == SIZE
    ensures |r| == n
  {
    seq(n, i requires 0 <= i < n => data[Wrap(pos, i)])
  }

  lemma WrapTwice(pos: nat, n: nat, i: nat)
    ensures Wrap(Wrap(pos, n), i) == Wrap(pos, n + i)
  {
  }

  lemma RingRest(data: seq<Byte>, pos: nat, size: nat, n: nat)
    requires |data| == SIZE && n <= size
    ensures Ring(data, Wrap(pos, n), size - n) == Ring(data, pos, size)[n..]
  {
    var x, y := Ring(data, Wrap(pos, n), size - n), Ring(data, pos, size)[n..];
    forall i | 0 <= i < size - n
      ensures x[i] == y[i]
    {
      WrapTwice(pos, n, i);
    }
  }

  // ----- values -----

  function BigEndian(bytes: seq<Byte>): nat {
    if bytes == [] then 0 else 256 * BigEndian(bytes[..|bytes| - 1]) + bytes[|bytes| - 1]
  }

  /** A number in network byte order, cut to `width` bytes. */
  function ToBytes(n: nat, width: nat): (r: seq<Byte>)
    ensures |r| == width
  {
    if width == 0 then [] else ToBytes(n / 256, width - 1) + [n % 256]
  }

  ghost function Pow256(n: nat): nat {
    if n == 0 then 1 else 256 * Pow256(n - 1)
  }

  /** Reading back a number that fits gives the number. */
  lemma {:induction false} BigEndianRoundTrip(n: nat, width: nat)
    requires n < Pow256(width)
    ensures BigEndian(ToBytes(n, width)) == n
  {
    if width > 0 {
      BigEndianRoundTrip(n / 256, width - 1);
      assert ToBytes(n, width)[..width - 1] == ToBytes(n / 256, width - 1);
    }
  }

  function Modulus(width: nat): nat
    requires width in {1, 2, 4}
  {
    if width == 1 then 0x100 else if width == 2 then 0x1_0000 else 0x1_0000_0000
  }

  function ToSigned(v: nat, width: nat): int
    requires width in {1, 2, 4}
  {
    if v < Modulus(width) / 2 then v else v - Modulus(width)
  }

  function Value(bytes: seq<Byte>, signed: bool): int
    requires |bytes| in {1, 2, 4}
  {
    if signed then ToSigned(BigEndian(bytes), |bytes|) else BigEndian(bytes)
  }

  /** A string with its terminator checked and dropped. */
  function Text(bytes: seq<Byte>, terminated: bool): Result<seq<Byte>, Error>
    requires terminated ==> bytes != []
  {
    if !terminated then Success(bytes)
    else if bytes[|bytes| - 1] != 0 then Failure(IOError)
    else Success(bytes[..|bytes| - 1])
  }

  // ----- whole conversations -----

  /** What the server asks for next. */
  datatype Request = Integer(width: nat, signed: bool) | String(length: nat, terminated: bool)

  datatype Answer = Number(number: int) | Characters(characters: seq<Byte>)

  predicate Allowed(q: Request) {
    match q
    case Integer(width, _) => width in {1, 2, 4}
    case String(length, terminated) => terminated ==> length > 0
  }

  function Length(q: Request): nat {
    match q
    case Integer(width, _) => width
    case String(length, _) => length
  }

  /** The answer to one request from the front of a byte stream. */
  function Decode(q: Request, stream: seq<Byte>): Option<Answer>
    requires Allowed(q)
  {
    if |stream| < Length(q) then None
    else match q
      case Integer(width, signed) => Some(Number(Value(stream[..width], signed)))
      case String(length, terminated) =>
        var text := Text(stream[..length], terminated);
        if text.Success? then Some(Characters(text.value)) else None
  }

  /** The answers to all requests, taken one after the other from the stream; None if one cannot be answered. */
  function DecodeAll(qs: seq<Request>, stream: seq<Byte>): Option<seq<Answer>>
    requires forall q | q in qs :: Allowed(q)
  {
    if qs == [] then Some([])
    else
      var first := Decode(qs[0], stream);
      if first.None? then None
      else
        var rest := DecodeAll(qs[1..], stream[Length(qs[0])..]);
        if rest.None? then None else Some([first.value] + rest.value)
  }

  // ----- the ring -----

  /** How far position `p` lies behind position `pos`. */
  ghost function Distance(pos: nat, p: nat): nat
    requires pos < SIZE && p < SIZE
  {
    if p >= pos then p - pos else p - pos + SIZE
  }

  /** `after` holds `bytes` from position `pos` on and is `before` everywhere else. */
  ghost predicate Stored(before: seq<Byte>, after: seq<Byte>, pos: nat, bytes: seq<Byte>)
    requires |before| == |after| == SIZE && pos < SIZE
  {
    forall p: nat | p < SIZE ::
      after[p] == if Distance(pos, p) < |bytes| then bytes[Distance(pos, p)] else before[p]
  }

  lemma DistanceBehind(pos: nat, i: nat)
    requires pos < SIZE && i < SIZE
    ensures Distance(pos, Wrap(pos, i)) == i
  {
  }

  lemma DistanceBefore(start: nat, size: nat, i: nat)
    requires start < SIZE && i < size < SIZE
    ensures Distance(Wrap(start, size), Wrap(start, i)) == SIZE - size + i
  {
  }

  lemma StoredRing(before: seq<Byte>, after: seq<Byte>, start: nat, size: nat, pos: nat, bytes: seq<Byte>)
    requires |before| == |after| == SIZE && start < SIZE && pos == Wrap(start, size) && size + |bytes| <= CAPACITY
    requires Stored(before, after, pos, bytes)
    ensures Ring(after, pos, |bytes|) == bytes
    ensures Ring(after, start, size) == Ring(before, start, size)
  {
    forall i | 0 <= i < |bytes| ensures Ring(after, pos, |bytes|)[i] == bytes[i] {
      DistanceBehind(pos, i);
    }
    forall i | 0 <= i < size ensures Ring(after, start, size)[i] == Ring(before, start, size)[i] {
      DistanceBefore(start, size, i);
    }
  }

  /** The other end of the connection: the bytes it still has to deliver, cut into reads in any way. */
  class Socket {
    var incoming: seq<Byte>
    /** How often a read found the connection reset. */
    ghost var resets: nat

    /**
     A read of at least `atLeast` and at most `atMost` bytes. It fails when the connection is
     reset, or when it ends before enough bytes came; the bytes that did come are then reported too.
     */
    method Read(atLeast: nat, atMost: nat) returns (bytes: seq<Byte>, reset: bool, eof: bool)
      requires 1 <= atLeast <= atMost
      modifies this
      ensures |bytes| <= atMost && old(incoming) == bytes + incoming
      ensures !reset && !eof ==> atLeast <= |bytes|
      ensures eof ==> |bytes| == |old(incoming)| < atLeast
      ensures resets == old(resets) + if reset then 1 else 0
    {
      reset := *;
      eof := false;
      if reset {
        bytes := [];
        resets := resets + 1;
      } else if |incoming| < atLeast {
        bytes, eof := incoming, true;
      } else {
        var n :| atLeast <= n <= atMost && n <= |incoming|;
        bytes := incoming[..n];
      }
      incoming := incoming[|bytes|..];
    }
  }

  class BufferReader {
    const data: array<Byte>
    var start: nat
    var current: nat
    const socket: Socket

    ghost predicate Valid()
      reads this, data
    {
      data.Length == SIZE && start < SIZE && current < SIZE
    }

    constructor (socket: Socket)
      ensures Valid() && fresh(data) && this.socket == socket && Unread() == []
    {
      data := new Byte[SIZE](_ => 0);
      start, current := 0, 0;
      this.socket := socket;
    }

    /** Bytes received and not read yet. */
    function Size(): nat
      requires Valid()
      reads this, data
    {
      if current < start then current - start + SIZE else current - start
    }

    ghost function Unread(): seq<Byte>
      requires Valid()
      reads this, data
    {
      Ring(data[..], start, Size())
    }

    /** Everything the client sent that was not read yet. */
    ghost function Stream(): seq<Byte>
      requires Valid()
      reads this, data, socket
    {
      Unread() + socket.incoming
    }

    /** `count` bytes from `bytes[from..]` stored from position `at` on, without wrapping. */
    method Store(bytes: seq<Byte>, from: nat, count: nat, at: nat)
      requires Valid() && from + count <= |bytes| && at + count <= SIZE
      modifies data
      ensures forall p | at <= p < at + count :: data[p] == bytes[from + p - at]
      ensures forall p | 0 <= p < SIZE && !(at <= p < at + count) :: data[p] == old(data[p])
    {
      for k := 0 to count
        invariant forall p | at <= p < at + k :: data[p] == bytes[from + p - at]
        invariant forall p | 0 <= p < SIZE && !(at <= p < at + k) :: data[p] == old(data[p])
      {
        data[at + k] := bytes[from + k];
      }
    }

    /**
     Fills the free part of the buffer: one stretch up to the read position when the unread
     bytes wrap around or start at 0, otherwise the stretch to the end and then the one from 0.
     No unread byte is overwritten.
     */
    method Scatter(bytes: seq<Byte>)
      requires Valid() && |bytes| <= CAPACITY - Size()
      modifies data
      ensures Ring(data[..], current, |bytes|) == bytes
      ensures Unread() == old(Unread())
    {
      ghost var before := data[..];
      if current < start || start == 0 {
        Store(bytes, 0, |bytes|, current);
      } else {
        var first := if |bytes| < SIZE - current then |bytes| else SIZE - current;
        Store(bytes, 0, first, current);
        Store(bytes, first, |bytes| - first, 0);
      }
      assert Stored(before, data[..], current, bytes);
      StoredRing(before, data[..], start, Size(), current, bytes);
    }

    /** A read of `n` bytes may fail when the connection was reset or when fewer bytes than that will ever come. */
    ghost predicate Excused(resets: nat, available: nat, n: nat)
      reads socket
    {
      socket.resets > resets || available < n
    }

    /** Makes at least `bytes` bytes available, leaving the unread stream as it was. */
    method ReceiveMore(bytes: nat) returns (r: Result<(), Error>)
      requires Valid() && bytes <= CAPACITY
      modifies this`current, data, socket
      ensures Valid()
      ensures r.Success? ==> Size() >= bytes && Stream() == old(Stream())
      ensures r.Failure? ==> Unread() == old(Unread()) && Excused(old(socket.resets), |old(Stream())|, bytes)
      ensures old(socket.resets) <= socket.resets
      ensures r.Failure? && socket.resets == old(socket.resets) ==>
        r.error == if old(socket.incoming) == [] then ClientClose else IOError
    {
      if Size() >= bytes {
        return Success(());
      }
      var received, reset, eof := socket.Read(bytes - Size(), CAPACITY - Size());
      Scatter(received);
      if reset {
        return Failure(ClientClose);
      }
      if |received| == 0 {
        return Failure(ClientClose);
      }
      if eof {
        return Failure(IOError);
      }
      Advance(received);
      return Success(());
    }

    /** Counts the bytes just stored behind the unread ones as unread. */
    method Advance(received: seq<Byte>)
      requires Valid() && |received| <= CAPACITY - Size() && Ring(data[..], current, |received|) == received
      modifies this`current
      ensures Valid() && Size() == old(Size()) + |received| && Unread() == old(Unread()) + received
    {
      ghost var before := Unread();
      ghost var size := Size();
      current := Wrap(current, |received|);
      assert Size() == size + |received|;
      forall i | 0 <= i < Size() ensures Unread()[i] == (before + received)[i] {
        if i >= size {
          assert Ring(data[..], old(current), |received|)[i - size] == received[i - size];
          assert Wrap(old(current), i - size) == Wrap(start, i);
        }
      }
    }

    /** The next `n` unread bytes. */
    method Peek(n: nat) returns (bytes: seq<Byte>)
      requires Valid() && n <= Size()
      ensures bytes == Unread()[..n]
    {
      bytes := [];
      var iter := start;
      ghost var unread := Unread();
      for k := 0 to n
        invariant iter == Wrap(start, k) && bytes == unread[..k]
      {
        assert unread[k] == data[iter];
        bytes := bytes + [data[iter]];
        iter := Wrap(iter, 1);
      }
    }

    /** Copies the next `n` unread bytes and moves on. */
    method Take(n: nat) returns (bytes: seq<Byte>)
      requires Valid() && n <= Size()
      modifies this`start
      ensures Valid() && bytes == old(Unread())[..n] && Unread() == old(Unread())[n..]
    {
      bytes := Peek(n);
      RingRest(data[..], start, Size(), n);
      ghost var size := Size();
      start := Wrap(start, n);
      assert Size() == size - n;
    }

    /** The next `n` bytes of the stream, for `n` that fits in the buffer. */
    method ReadBytes(n: nat) returns (r: Result<seq<Byte>, Error>)
      requires Valid() && n <= CAPACITY
      modifies this, data, socket
      ensures Valid()
      ensures r.Success? ==> n <= |old(Stream())| && r.value == old(Stream())[..n] && Stream() == old(Stream())[n..]
      ensures r.Failure? ==> Excused(old(socket.resets), |old(Stream())|, n)
      ensures old(socket.resets) <= socket.resets
    {
      var more := ReceiveMore(n);
      if more.Failure? {
        return Failure(more.error);
      }
      var bytes := Take(n);
      r := Success(bytes);
    }

    /** `read_value_u8`, `_i8`, `_u16`, `_i16`, `_u32` and `_i32`: the bytes are in network order. */
    method ReadValue(width: nat, signed: bool) returns (r: Result<int, Error>)
      requires Valid() && width in {1, 2, 4}
      modifies this, data, socket
      ensures Valid()
      ensures r.Success? ==>
        && width <= |old(Stream())|
        && r.value == Value(old(Stream())[..width], signed)
        && Stream() == old(Stream())[width..]
      ensures r.Failure? ==> Excused(old(socket.resets), |old(Stream())|, width)
      ensures old(socket.resets) <= socket.resets
    {
      var bytes := ReadBytes(width);
      if bytes.Failure? {
        return Failure(bytes.error);
      }
      var v := BigEndian(bytes.value);
      return Success(if signed then ToSigned(v, width) else v);
    }

    /** Another piece of a string, at most as long as the buffer. */
    method ReadPiece(result: seq<Byte>, length: nat, ghost stream: seq<Byte>) returns (r: Result<seq<Byte>, Error>)
      requires Valid() && |result| < length && |result| <= |stream|
      requires result == stream[..|result|] && Stream() == stream[|result|..]
      modifies this, data, socket
      ensures Valid() && old(socket.resets) <= socket.resets
      ensures r.Success? ==>
        && |result| < |r.value| <= length && |r.value| <= |stream|
        && r.value == stream[..|r.value|] && Stream() == stream[|r.value|..]
      ensures r.Failure? ==> Excused(old(socket.resets), |stream|, length)
    {
      var n := if length - |result| < CAPACITY then length - |result| else CAPACITY;
      var piece := ReadBytes(n);
      if piece.Failure? {
        return Failure(piece.error);
      }
      SliceOfSuffix(stream, |result|, 0, n);
      SliceJoin(stream, 0, |result|, |result| + n);
      return Success(result + piece.value);
    }

    /**
     `read_string` with a length: what is already buffered first, then the rest in pieces that
     fit in the buffer. With a terminator the last byte must be 0 and is dropped.
     */
    method ReadString(length: nat, terminated: bool) returns (r: Result<seq<Byte>, Error>)
      requires Valid() && (terminated ==> length > 0)
      modifies this, data, socket
      ensures Valid()
      ensures r.Success? ==>
        && length <= |old(Stream())|
        && Text(old(Stream())[..length], terminated) == r
        && Stream() == old(Stream())[length..]
      ensures r.Failure? ==>
        || Excused(old(socket.resets), |old(Stream())|, length)
        || Text(old(Stream())[..length], terminated).Failure?
      ensures old(socket.resets) <= socket.resets
    {
      ghost var stream := Stream();
      var result := [];
      if Size() != 0 {
        result := Take(if length < Size() then length else Size());
      }
      while |result| < length
        invariant Valid() && |result| <= length && |result| <= |stream|
        invariant result == stream[..|result|] && Stream() == stream[|result|..]
        invariant old(socket.resets) <= socket.resets
        decreases length - |result|
      {
        var piece := ReadPiece(result, length, stream);
        if piece.Failure? {
          return Failure(piece.error);
        }
        result := piece.value;
      }
      r := Text(result, terminated);
    }

    /** One request. */
    method AnswerOne(q: Request) returns (r: Result<Answer, Error>)
      requires Valid() && Allowed(q)
      modifies this, data, socket
      ensures Valid() && old(socket.resets) <= socket.resets
      ensures r.Success? ==>
        Decode(q, old(Stream())) == Some(r.value) && Stream() == old(Stream())[Length(q)..]
      ensures r.Failure? ==> socket.resets > old(socket.resets) || Decode(q, old(Stream())) == None
    {
      match q
      case Integer(width, signed) =>
        var v := ReadValue(width, signed);
        r := if v.Success? then Success(Number(v.value)) else Failure(v.error);
      case String(length, terminated) =>
        var s := ReadString(length, terminated);
        r := if s.Success? then Success(Characters(s.value)) else Failure(s.error);
    }

    /**
     Any sequence of requests: however the socket cuts the stream into reads, the answers are
     those of the plain byte stream, and the only other outcome is a failure that the stream
     itself or a reset of the connection explains.
     */
    method AnswerAll(qs: seq<Request>) returns (r: Result<seq<Answer>, Error>)
      requires Valid() && forall q | q in qs :: Allowed(q)
      modifies this, data, socket
      ensures Valid() && old(socket.resets) <= socket.resets
      ensures r.Success? ==> DecodeAll(qs, old(Stream())) == Some(r.value)
      ensures r.Failure? ==> socket.resets > old(socket.resets) || DecodeAll(qs, old(Stream())) == None
      decreases |qs|
    {
      if qs == [] {
        return Success([]);
      }
      var first := AnswerOne(qs[0]);
      if first.Failure? {
        return Failure(first.error);
      }
      var rest := AnswerAll(qs[1..]);
      if rest.Failure? {
        return Failure(rest.error);
      }
      return Success([first.value] + rest.value);
    }
  }
}
