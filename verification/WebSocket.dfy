/** The WebSocket frame codec (api/websocket.py; sections 5.2 to 5.4 of RFC 6455). */
module WebSocket {
  import opened Options

  type Byte = b: int | 0 <= b < 256

  const MAX_PAYLOAD := 0x10_0000
  const OP_TEXT := 1

  datatype Frame = Frame(opcode: nat, payload: seq<Byte>)

  // ------------------------------------------------------------------- numbers and masks

  function Power(k: nat): (p: nat)
    ensures p >= 1
  {
    if k == 0 then 1 else 256 * Power(k - 1)
  }

  /** Network byte order. */
  function BigEndian(n: nat, k: nat): (bytes: seq<Byte>)
    ensures |bytes| == k
  {
    if k == 0 then [] else BigEndian(n / 256, k - 1) + [n % 256]
  }

  function Value(bytes: seq<Byte>): nat
  {
    if bytes == [] then 0 else 256 * Value(bytes[..|bytes| - 1]) + bytes[|bytes| - 1]
  }

  lemma {:induction false} ValueOfBigEndian(n: nat, k: nat)
    requires n < Power(k)
    ensures Value(BigEndian(n, k)) == n
  {
    if k > 0 {
      ValueOfBigEndian(n / 256, k - 1);
      var bytes := BigEndian(n, k);
      assert bytes[..k - 1] == BigEndian(n / 256, k - 1);
    }
  }

  /** The first bytes weigh the most. */
  lemma {:induction false} ValueOfBoth(a: seq<Byte>, b: seq<Byte>)
    ensures Value(a + b) == Value(a) * Power(|b|) + Value(b)
    ensures |b| == 1 ==> Value(b) == b[0]
  {
    if b == [] {
      assert a + b == a;
    } else {
      var n := |b| - 1;
      ValueOfBoth(a, b[..n]);
      assert (a + b)[..|a| + n] == a + b[..n];
      Shifted(Value(a), Power(n), Value(b[..n]), b[n]);
      if n == 0 { assert Value(b[..0]) == 0; }
    }
  }

  lemma Shifted(a: nat, p: nat, v: nat, last: nat)
    ensures 256 * (a * p + v) + last == a * (256 * p) + (256 * v + last)
  {
  }

  lemma {:induction false} ValueBounded(bytes: seq<Byte>)
    ensures Value(bytes) < Power(|bytes|)
    ensures BigEndian(Value(bytes), |bytes|) == bytes
  {
    if bytes != [] {
      ValueBounded(bytes[..|bytes| - 1]);
      assert bytes == bytes[..|bytes| - 1] + [bytes[|bytes| - 1]];
    }
  }

  lemma Powers()
    ensures Power(2) == 0x1_0000 && Power(8) == 0x1_0000_0000_0000_0000
  {
    assert Power(4) == 0x1_0000_0000;
    assert Power(6) == 0x1_0000_0000_0000;
  }

  function Bits(a: nat, b: nat, n: nat): nat
  {
    if n == 0 then 0 else (if a % 2 != b % 2 then 1 else 0) + 2 * Bits(a / 2, b / 2, n - 1)
  }

  function TwoTo(n: nat): (p: nat)
    ensures p >= 1
  {
    if n == 0 then 1 else 2 * TwoTo(n - 1)
  }

  lemma {:induction false} BitsInvolution(a: nat, b: nat, n: nat)
    requires a < TwoTo(n)
    ensures Bits(a, b, n) < TwoTo(n) && Bits(Bits(a, b, n), b, n) == a
  {
    if n > 0 {
      BitsInvolution(a / 2, b / 2, n - 1);
      var c := Bits(a, b, n);
      assert c / 2 == Bits(a / 2, b / 2, n - 1);
    }
  }

  /** Binary digit `k` of a number: its remainder by two once it was halved `k` times. */
  function Digit(n: nat, k: nat): nat { if k == 0 then n % 2 else Digit(n / 2, k - 1) }

  lemma {:induction false} BitsDigits(a: nat, b: nat, n: nat, k: nat)
    requires k < n
    ensures Digit(Bits(a, b, n), k) == if Digit(a, k) != Digit(b, k) then 1 else 0
  {
    var c := Bits(a, b, n);
    assert c / 2 == Bits(a / 2, b / 2, n - 1);
    if k > 0 {
      BitsDigits(a / 2, b / 2, n - 1, k - 1);
    }
  }

  /** Digits determine a number below a power of two. */
  lemma {:induction false} SameDigits(a: nat, b: nat, n: nat)
    requires a < TwoTo(n) && b < TwoTo(n) && forall k: nat | k < n :: Digit(a, k) == Digit(b, k)
    ensures a == b
  {
    if n > 0 {
      forall k: nat | k < n - 1
        ensures Digit(a / 2, k) == Digit(b / 2, k)
      {
        assert Digit(a, k + 1) == Digit(b, k + 1);
      }
      SameDigits(a / 2, b / 2, n - 1);
      assert Digit(a, 0) == Digit(b, 0);
    }
  }

  lemma EightBits()
    ensures TwoTo(8) == 256
  {
    assert TwoTo(4) == 16;
  }

  /** Exclusive or of two bytes. */
  function Xor(a: Byte, b: Byte): Byte
  {
    EightBits();
    BitsInvolution(a, b, 8);
    Bits(a, b, 8)
  }

  lemma XorInvolution(a: Byte, b: Byte)
    ensures Xor(Xor(a, b), b) == a
  {
    EightBits();
    BitsInvolution(a, b, 8);
  }

  /** Every binary digit of the result says whether the two digits differ. */
  predicate Differs(a: Byte, b: Byte, c: Byte)
  {
    forall k: nat | k < 8 :: Digit(c, k) == if Digit(a, k) != Digit(b, k) then 1 else 0
  }

  /** Exclusive or is the one byte whose digits are those in which the two differ. */
  lemma XorIff(a: Byte, b: Byte, c: Byte)
    ensures c == Xor(a, b) <==> Differs(a, b, c)
  {
    EightBits();
    forall k: nat | k < 8
      ensures Digit(Xor(a, b), k) == if Digit(a, k) != Digit(b, k) then 1 else 0
    {
      BitsDigits(a, b, 8, k);
    }
    if Differs(a, b, c) { SameDigits(c, Xor(a, b), 8); }
  }

  lemma {:induction false} SmallDigit(n: nat, k: nat)
    ensures Digit(n, k) <= 1 && Digit(0, k) == 0
  {
    if k > 0 {
      SmallDigit(n / 2, k - 1);
    }
  }

  /** A zero key leaves a byte alone, and a byte clears itself. */
  lemma XorUnits(a: Byte)
    ensures Xor(a, 0) == a && Xor(a, a) == 0
  {
    forall k: nat | k < 8
      ensures Digit(0, k) == 0 && Digit(a, k) <= 1
    {
      SmallDigit(a, k);
    }
    XorIff(a, 0, a);
    XorIff(a, a, 0);
  }

  function Masked(raw: seq<Byte>, mask: seq<Byte>): (out: seq<Byte>)
    requires |mask| == 4
    ensures |out| == |raw|
  {
    seq(|raw|, i requires 0 <= i < |raw| => Xor(raw[i], mask[i % 4]))
  }

  lemma MaskTwice(raw: seq<Byte>, mask: seq<Byte>)
    requires |mask| == 4
    ensures Masked(Masked(raw, mask), mask) == raw
  {
    forall i | 0 <= i < |raw|
      ensures Xor(Xor(raw[i], mask[i % 4]), mask[i % 4]) == raw[i]
    {
      XorInvolution(raw[i], mask[i % 4]);
    }
  }

  /** The bytes hide the payload: each digit of byte `i` says whether those of the payload and of key byte
      `i % 4` differ. */
  predicate Veils(payload: seq<Byte>, mask: seq<Byte>, bytes: seq<Byte>)
    requires |mask| == 4
  {
    |bytes| == |payload| && forall i | 0 <= i < |payload| :: Differs(payload[i], mask[i % 4], bytes[i])
  }

  lemma VeilsIff(payload: seq<Byte>, mask: seq<Byte>, bytes: seq<Byte>)
    requires |mask| == 4
    ensures Veils(payload, mask, bytes) <==> bytes == Masked(payload, mask)
  {
    if |bytes| == |payload| {
      forall i | 0 <= i < |payload|
        ensures Differs(payload[i], mask[i % 4], bytes[i]) <==> bytes[i] == Masked(payload, mask)[i]
      {
        XorIff(payload[i], mask[i % 4], bytes[i]);
      }
    }
  }

  // ------------------------------------------------------------------------------ writing

  /** Server frames: final, never masked, the shortest length form. */
  function Encode(payload: seq<Byte>, opcode: Byte): seq<Byte>
    requires |payload| < Power(8)
  {
    var first: Byte := if opcode < 128 then 128 + opcode else opcode;
    var n := |payload|;
    var length :=
      if n < 126 then [n] else if n < 0x1_0000 then [126] + BigEndian(n, 2) else [127] + BigEndian(n, 8);
    [first] + length + payload
  }

  /** The ways a peer can write a length. */
  datatype Form = Short | Medium | Long

  /** One frame of a peer: one piece of a message, masked or not, in any length form that fits. */
  datatype Fragment = Fragment(final: bool, opcode: nat, mask: Option<seq<Byte>>, form: Form, payload: seq<Byte>)

  ghost predicate Proper(f: Fragment)
  {
    && f.opcode < 16
    && (f.mask.Some? ==> |f.mask.value| == 4)
    && |f.payload| < match f.form case Short => 126 case Medium => Power(2) case Long => Power(8)
  }

  function Lead(f: Fragment): seq<Byte>
    requires Proper(f)
  {
    var n := |f.payload|;
    var bit := if f.mask.Some? then 128 else 0;
    [(if f.final then 128 else 0) + f.opcode]
    + match f.form
      case Short => [bit + n]
      case Medium => [bit + 126] + BigEndian(n, 2)
      case Long => [bit + 127] + BigEndian(n, 8)
  }

  function Body(f: Fragment): seq<Byte>
    requires Proper(f)
  {
    if f.mask.Some? then f.mask.value + Masked(f.payload, f.mask.value) else f.payload
  }

  function Wire(f: Fragment): seq<Byte>
    requires Proper(f)
  {
    Lead(f) + Body(f)
  }

  function ServerFragment(payload: seq<Byte>, opcode: nat): Fragment
  {
    var form := if |payload| < 126 then Short else if |payload| < 0x1_0000 then Medium else Long;
    Fragment(true, opcode, None, form, payload)
  }

  lemma EncodeIsWire(payload: seq<Byte>, opcode: Byte)
    requires |payload| < Power(8)
    ensures opcode < 16 ==> Proper(ServerFragment(payload, opcode))
    ensures opcode < 16 ==> Encode(payload, opcode) == Wire(ServerFragment(payload, opcode))
    ensures Encode(payload, opcode)[0] % 16 == opcode % 16 && Encode(payload, opcode)[0] >= 128
    ensures Encode(payload, opcode)[1..] == Encode(payload, opcode % 16)[1..]
  {
    Powers();
  }

  // ------------------------------------------------------------------------------ reading

  datatype Error = Incomplete | TooLong | Unmasked | WronglyMasked

  datatype Head = Head(final: bool, opcode: nat, masked: bool, length: nat, size: nat)

  function ReadHead(s: seq<Byte>): (h: Option<Head>)
    ensures h.Some? ==> 2 <= h.value.size <= |s|
  {
    if |s| < 2 then None
    else
      var final, opcode, masked, n := s[0] >= 128, s[0] % 16, s[1] >= 128, s[1] % 128;
      if n == 126 then
        if |s| < 4 then None else Some(Head(final, opcode, masked, Value(s[2..4]), 4))
      else if n == 127 then
        if |s| < 10 then None else Some(Head(final, opcode, masked, Value(s[2..10]), 10))
      else Some(Head(final, opcode, masked, n, 2))
  }

  datatype Piece = Piece(final: bool, opcode: nat, payload: seq<Byte>, rest: seq<Byte>) | Closed | Broken(error: Error)

  /** The mask and the payload that follow a header. */
  function PieceAfter(h: Head, s: seq<Byte>): (p: Piece)
    requires h.size <= |s|
    ensures p.Piece? ==> |p.rest| <= |s| - h.size
  {
    var start := if h.masked then h.size + 4 else h.size;
    if |s| < start + h.length then Broken(Incomplete)
    else
      var raw := s[start..start + h.length];
      Piece(h.final, h.opcode, if h.masked then Masked(raw, s[h.size..h.size + 4]) else raw, s[start + h.length..])
  }

  /** What the bytes still to come say, up to the end of one frame. `eof` says whether the end of the
      stream is already known. */
  function ReadPiece(s: seq<Byte>, eof: bool, expectMask: bool): (p: Piece)
    ensures p.Piece? ==> |p.rest| < |s|
  {
    match ReadHead(s)
    case None => if s == [] && eof then Closed else Broken(Incomplete)
    case Some(h) =>
      if h.length > MAX_PAYLOAD then Broken(TooLong)
      else if expectMask && !h.masked then Broken(Unmasked)
      else if !expectMask && h.masked then Broken(WronglyMasked)
      else PieceAfter(h, s)
  }

  datatype Outcome = Got(frame: Frame, rest: seq<Byte>) | Disconnected | Failed(error: Error)

  function Newest(opcode: Option<nat>, seen: nat): Option<nat> { if seen != 0 then Some(seen) else opcode }

  /** A message whose frames are all continuations counts as text. */
  function OpcodeOf(opcode: Option<nat>): nat { if opcode.Some? then opcode.value else OP_TEXT }

  /** One message: pieces up to the first final one. */
  function Parse(s: seq<Byte>, eof: bool, expectMask: bool, opcode: Option<nat>, acc: seq<Byte>): (o: Outcome)
    ensures o.Got? ==> |o.rest| < |s|
    decreases |s|
  {
    match ReadPiece(s, eof, expectMask)
    case Closed => Disconnected
    case Broken(error) => Failed(error)
    case Piece(final, seen, payload, rest) =>
      if final then Got(Frame(OpcodeOf(Newest(opcode, seen)), acc + payload), rest)
      else Parse(rest, eof, expectMask, Newest(opcode, seen), acc + payload)
  }

  class StreamReader {
    var buffer: seq<Byte>
    const eof: bool

    constructor (buffer: seq<Byte>, eof: bool)
      ensures this.buffer == buffer && this.eof == eof
    {
      this.buffer, this.eof := buffer, eof;
    }

    /** Takes exactly `n` bytes, or fails and leaves nothing. */
    method ReadExactly(n: nat) returns (bytes: Option<seq<Byte>>)
      modifies this
      ensures n <= |old(buffer)| ==> bytes == Some(old(buffer)[..n]) && buffer == old(buffer)[n..]
      ensures n > |old(buffer)| ==> bytes == None && buffer == []
    {
      if |buffer| < n {
        buffer := [];
        return None;
      }
      bytes, buffer := Some(buffer[..n]), buffer[n..];
    }

    /** The two fixed bytes and the extended length. */
    method ReadHeader() returns (head: Option<Head>)
      modifies this
      ensures head == ReadHead(old(buffer))
      ensures head.Some? ==> buffer == old(buffer)[head.value.size..]
    {
      var two := ReadExactly(2);
      if two.None? {
        return None;
      }
      var header := two.value;
      var final, opcode, masked, length := header[0] >= 128, header[0] % 16, header[1] >= 128, header[1] % 128;
      var size := 2;
      if length == 126 || length == 127 {
        size := if length == 126 then 4 else 10;
        var extended := ReadExactly(size - 2);
        if extended.None? {
          return None;
        }
        assert extended.value == old(buffer)[2..size];
        length := Value(extended.value);
      }
      return Some(Head(final, opcode, masked, length, size));
    }

    method ReadOne(expectMask: bool) returns (piece: Piece)
      modifies this
      ensures piece == ReadPiece(old(buffer), eof, expectMask)
      ensures piece.Piece? ==> buffer == piece.rest
    {
      if buffer == [] && eof {
        return Closed;
      }
      ghost var before := buffer;
      var head := ReadHeader();
      if head.None? {
        return Broken(Incomplete);
      }
      var h := head.value;
      if h.length > MAX_PAYLOAD {
        return Broken(TooLong);
      }
      if expectMask && !h.masked {
        return Broken(Unmasked);
      }
      if !expectMask && h.masked {
        return Broken(WronglyMasked);
      }
      piece := ReadBody(h, before);
    }

    method ReadBody(h: Head, ghost before: seq<Byte>) returns (piece: Piece)
      requires h.size <= |before| && buffer == before[h.size..]
      modifies this
      ensures piece == PieceAfter(h, before)
      ensures piece.Piece? ==> buffer == piece.rest
    {
      var mask: Option<seq<Byte>> := None;
      if h.masked {
        mask := ReadExactly(4);
        if mask.None? {
          return Broken(Incomplete);
        }
      }
      var raw := ReadExactly(h.length);
      if raw.None? {
        return Broken(Incomplete);
      }
      piece := Piece(h.final, h.opcode, if h.masked then Masked(raw.value, mask.value) else raw.value, buffer);
    }

    /** Reads one message, putting its continuations together. */
    method ReadFrame(expectMask: bool) returns (outcome: Outcome)
      modifies this
      ensures outcome == Parse(old(buffer), eof, expectMask, None, [])
      ensures outcome.Got? ==> buffer == outcome.rest
    {
      var opcode: Option<nat>, chunks := None, [];
      while true
        invariant Parse(buffer, eof, expectMask, opcode, chunks) == Parse(old(buffer), eof, expectMask, None, [])
        decreases |buffer|
      {
        var piece := ReadOne(expectMask);
        match piece {
          case Closed => return Disconnected;
          case Broken(error) => return Failed(error);
          case Piece(final, seen, payload, rest) =>
            if seen != 0 {
              opcode := Some(seen);
            }
            chunks := chunks + payload;
            if final {
              return Got(Frame(OpcodeOf(opcode), chunks), rest);
            }
        }
      }
    }
  }
}
