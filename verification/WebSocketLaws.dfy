/** What the frame codec promises: whatever was written is read back, and nothing else is. */
module WebSocketLaws {
  import opened Options
  import opened WebSocket

  // --------------------------------------------------------------------------- one frame

  function HeadOf(f: Fragment): Head
    requires Proper(f)
  {
    Head(f.final, f.opcode, f.mask.Some?, |f.payload|, |Lead(f)|)
  }

  lemma LeadIsRead(f: Fragment, tail: seq<Byte>)
    requires Proper(f)
    ensures ReadHead(Lead(f) + tail) == Some(HeadOf(f))
  {
    ReadLead(f, Lead(f), tail);
  }

  lemma HeadByte(bit: bool, low: nat, base: nat, b: nat)
    requires b == (if bit then 128 else 0) + low && base in {16, 128} && low < base
    ensures (b >= 128 <==> bit) && b % base == low
  {
  }

  lemma ReadLead(f: Fragment, lead: seq<Byte>, tail: seq<Byte>)
    requires Proper(f) && lead == Lead(f)
    ensures ReadHead(lead + tail) == Some(Head(f.final, f.opcode, f.mask.Some?, |f.payload|, |lead|))
  {
    var bit := if f.mask.Some? then 128 else 0;
    var first: Byte := (if f.final then 128 else 0) + f.opcode;
    HeadByte(f.final, f.opcode, 16, first);
    if f.form.Short? {
      HeadByte(f.mask.Some?, |f.payload|, 128, bit + |f.payload|);
      assert lead == [first] + [bit + |f.payload|];
      ReadShort(first, bit + |f.payload|, tail);
    } else {
      ReadLonger(f, first, bit, lead, tail);
    }
  }

  lemma ReadLonger(f: Fragment, first: Byte, bit: nat, lead: seq<Byte>, tail: seq<Byte>)
    requires Proper(f) && !f.form.Short? && lead == Lead(f)
    requires first == (if f.final then 128 else 0) + f.opcode && (first >= 128 <==> f.final) && first % 16 == f.opcode
    requires bit == if f.mask.Some? then 128 else 0
    ensures ReadHead(lead + tail) == Some(Head(f.final, f.opcode, f.mask.Some?, |f.payload|, |lead|))
  {
    var k, code := if f.form.Medium? then 2 else 8, if f.form.Medium? then 126 else 127;
    HeadByte(f.mask.Some?, code, 128, bit + code);
    assert lead == [first] + ([bit + code] + BigEndian(|f.payload|, k));
    ReadExtended(first, bit + code, |f.payload|, k, tail);
  }

  lemma ReadShort(first: Byte, second: Byte, tail: seq<Byte>)
    requires second % 128 < 126
    ensures ReadHead([first] + [second] + tail) == Some(Head(first >= 128, first % 16, second >= 128, second % 128, 2))
  {
  }

  lemma ReadExtended(first: Byte, second: Byte, n: nat, k: nat, tail: seq<Byte>)
    requires n < Power(k) && ((second % 128 == 126 && k == 2) || (second % 128 == 127 && k == 8))
    ensures ReadHead([first] + ([second] + BigEndian(n, k)) + tail)
         == Some(Head(first >= 128, first % 16, second >= 128, n, 2 + k))
  {
    var bytes := BigEndian(n, k);
    ValueOfBigEndian(n, k);
    ExtendedLength(first, second, bytes, tail);
  }

  lemma ExtendedLength(first: Byte, second: Byte, extended: seq<Byte>, tail: seq<Byte>)
    ensures var s := [first] + ([second] + extended) + tail;
            s[0] == first && s[1] == second && s[2..2 + |extended|] == extended
  {
  }

  predicate Acceptable(f: Fragment, expectMask: bool) { |f.payload| <= MAX_PAYLOAD && f.mask.Some? == expectMask }

  /** A frame is read back whole, whatever follows it and whatever length form it uses, exactly when it is
      not too long and its masking is the expected one; otherwise the first of these that fails is the error. */
  lemma WireIsRead(f: Fragment, tail: seq<Byte>, eof: bool, expectMask: bool)
    requires Proper(f)
    ensures ReadPiece(Wire(f) + tail, eof, expectMask)
         == if |f.payload| > MAX_PAYLOAD then Broken(TooLong)
            else if expectMask && f.mask.None? then Broken(Unmasked)
            else if !expectMask && f.mask.Some? then Broken(WronglyMasked)
            else Piece(f.final, f.opcode, f.payload, tail)
  {
    var s := Wire(f) + tail;
    assert s == Lead(f) + (Body(f) + tail);
    LeadIsRead(f, Body(f) + tail);
    if Acceptable(f, expectMask) {
      BodyIsRead(f, tail);
    }
  }

  lemma BodyIsRead(f: Fragment, tail: seq<Byte>)
    requires Proper(f)
    ensures PieceAfter(HeadOf(f), Wire(f) + tail) == Piece(f.final, f.opcode, f.payload, tail)
  {
    var s, size, n := Wire(f) + tail, |Lead(f)|, |f.payload|;
    if f.mask.Some? {
      assert s[size..size + 4] == f.mask.value;
      assert s[size + 4..size + 4 + n] == Masked(f.payload, f.mask.value);
      assert s[size + 4 + n..] == tail;
      MaskTwice(f.payload, f.mask.value);
    } else {
      assert s[size..size + n] == f.payload && s[size + n..] == tail;
    }
  }

  // ------------------------------------------------------- frames given by their binary digits

  /** The bytes a peer may send for a frame: its lead, and the payload as it is or hidden, digit by digit, under
      the key that goes with it. */
  ghost predicate Written(f: Fragment, bytes: seq<Byte>)
    requires Proper(f)
  {
    match f.mask
    case None => bytes == Lead(f) + f.payload
    case Some(mask) => exists hidden :: Veils(f.payload, mask, hidden) && bytes == Lead(f) + (mask + hidden)
  }

  lemma WrittenIff(f: Fragment, bytes: seq<Byte>)
    requires Proper(f)
    ensures Written(f, bytes) <==> bytes == Wire(f)
  {
    if f.mask.Some? {
      VeilsIff(f.payload, f.mask.value, Masked(f.payload, f.mask.value));
      if Written(f, bytes) {
        var hidden :| Veils(f.payload, f.mask.value, hidden) && bytes == Lead(f) + (f.mask.value + hidden);
        VeilsIff(f.payload, f.mask.value, hidden);
      }
    }
  }

  /** A frame that was cut short is never taken for a frame. */
  lemma CutFrame(f: Fragment, cut: nat, eof: bool, expectMask: bool)
    requires Proper(f) && Acceptable(f, expectMask) && cut < |Wire(f)|
    ensures ReadPiece(Wire(f)[..cut], eof, expectMask) == if cut == 0 && eof then Closed else Broken(Incomplete)
  {
    var lead, body := Lead(f), Body(f);
    CutBoth(lead, body, cut);
    if cut >= |lead| {
      LeadIsRead(f, body[..cut - |lead|]);
    } else {
      LeadIsRead(f, []);
      CutLead(lead, cut);
    }
  }

  lemma CutLead(lead: seq<Byte>, cut: nat)
    requires cut < |lead| && ReadHead(lead + []).Some? && ReadHead(lead + []).value.size == |lead|
    ensures ReadHead(lead[..cut]) == None
  {
    assert lead + [] == lead;
  }

  lemma CutBoth(a: seq<Byte>, b: seq<Byte>, cut: nat)
    requires cut <= |a| + |b|
    ensures (a + b)[..cut] == if cut < |a| then a[..cut] else a + b[..cut - |a|]
  {
  }

  // --------------------------------------------------------------------------- messages

  ghost predicate AllProper(fs: seq<Fragment>) { forall f | f in fs :: Proper(f) }

  ghost function WireAll(fs: seq<Fragment>): seq<Byte>
    requires AllProper(fs)
  {
    if fs == [] then [] else Wire(fs[0]) + WireAll(fs[1..])
  }

  function Joined(fs: seq<Fragment>): seq<Byte>
  {
    if fs == [] then [] else fs[0].payload + Joined(fs[1..])
  }

  function LastOpcode(fs: seq<Fragment>, opcode: Option<nat>): Option<nat>
  {
    if fs == [] then opcode else LastOpcode(fs[1..], Newest(opcode, fs[0].opcode))
  }

  /** The frames of one message: only the last is final. */
  ghost predicate Message(fs: seq<Fragment>, expectMask: bool)
  {
    && fs != []
    && AllProper(fs) && (forall f | f in fs :: Acceptable(f, expectMask))
    && (forall i | 0 <= i < |fs| :: fs[i].final <==> i == |fs| - 1)
  }

  lemma RestOfMessage(fs: seq<Fragment>, expectMask: bool)
    requires Message(fs, expectMask)
    ensures Proper(fs[0]) && Acceptable(fs[0], expectMask) && AllProper(fs[1..])
    ensures fs[0].final <==> |fs| == 1
    ensures |fs| > 1 ==> Message(fs[1..], expectMask)
    ensures |fs| == 1 ==> fs[1..] == []
    ensures WireAll(fs) == Wire(fs[0]) + WireAll(fs[1..])
  {
  }

  lemma Associative(a: seq<Byte>, b: seq<Byte>, c: seq<Byte>)
    ensures (a + b) + c == a + (b + c)
  {
  }

  lemma RestOfBytes(fs: seq<Fragment>, tail: seq<Byte>, acc: seq<Byte>)
    requires fs != [] && AllProper(fs)
    ensures WireAll(fs) + tail == Wire(fs[0]) + (WireAll(fs[1..]) + tail)
    ensures acc + Joined(fs) == (acc + fs[0].payload) + Joined(fs[1..])
    ensures |fs| == 1 ==> WireAll(fs[1..]) + tail == tail && acc + Joined(fs) == acc + fs[0].payload
  {
    Associative(Wire(fs[0]), WireAll(fs[1..]), tail);
    Associative(acc, fs[0].payload, Joined(fs[1..]));
    if |fs| == 1 {
      assert fs[1..] == [];
    }
  }

  lemma OneMore(f: Fragment, rest: seq<Byte>, eof: bool, expectMask: bool, opcode: Option<nat>, acc: seq<Byte>)
    requires Proper(f) && Acceptable(f, expectMask)
    ensures Parse(Wire(f) + rest, eof, expectMask, opcode, acc)
         == if f.final then Got(Frame(OpcodeOf(Newest(opcode, f.opcode)), acc + f.payload), rest)
            else Parse(rest, eof, expectMask, Newest(opcode, f.opcode), acc + f.payload)
  {
    WireIsRead(f, rest, eof, expectMask);
  }

  /** Reading any frames up to the first final one gives their payloads one after the other, under the
      last opcode that is not a continuation, and leaves what follows. */
  lemma {:induction false} MessageIsRead(fs: seq<Fragment>, tail: seq<Byte>, eof: bool, expectMask: bool,
                                         opcode: Option<nat>, acc: seq<Byte>)
    requires Message(fs, expectMask)
    ensures Parse(WireAll(fs) + tail, eof, expectMask, opcode, acc)
         == Got(Frame(OpcodeOf(LastOpcode(fs, opcode)), acc + Joined(fs)), tail)
    decreases |fs|
  {
    RestOfMessage(fs, expectMask);
    RestOfBytes(fs, tail, acc);
    var f, more := fs[0], fs[1..];
    OneMore(f, WireAll(more) + tail, eof, expectMask, opcode, acc);
    if |fs| > 1 {
      MessageIsRead(more, tail, eof, expectMask, Newest(opcode, f.opcode), acc + f.payload);
    }
  }

  lemma {:induction false} ContinuationsKeepOpcode(fs: seq<Fragment>, opcode: Option<nat>)
    requires forall f | f in fs :: f.opcode == 0
    ensures LastOpcode(fs, opcode) == opcode
  {
    if fs != [] {
      ContinuationsKeepOpcode(fs[1..], opcode);
    }
  }

  /** A message split anywhere, with any masks and length forms, is put together again under the opcode of
      its first frame. */
  lemma SplitMessageReassembles(fs: seq<Fragment>, tail: seq<Byte>, eof: bool, expectMask: bool)
    requires Message(fs, expectMask) && fs[0].opcode != 0 && forall i | 0 < i < |fs| :: fs[i].opcode == 0
    ensures Parse(WireAll(fs) + tail, eof, expectMask, None, []) == Got(Frame(fs[0].opcode, Joined(fs)), tail)
  {
    MessageIsRead(fs, tail, eof, expectMask, None, []);
    ContinuationsKeepOpcode(fs[1..], Some(fs[0].opcode));
    assert [] + Joined(fs) == Joined(fs);
  }

  function Flat(pieces: seq<seq<Byte>>): seq<Byte> { if pieces == [] then [] else pieces[0] + Flat(pieces[1..]) }

  ghost predicate AllWritten(fs: seq<Fragment>, pieces: seq<seq<Byte>>)
    requires AllProper(fs)
  {
    |pieces| == |fs| && forall i | 0 <= i < |fs| :: Written(fs[i], pieces[i])
  }

  lemma {:induction false} FlatIsWire(fs: seq<Fragment>, pieces: seq<seq<Byte>>)
    requires AllProper(fs) && AllWritten(fs, pieces)
    ensures Flat(pieces) == WireAll(fs)
    decreases |fs|
  {
    if fs != [] {
      assert forall i | 0 <= i < |fs| - 1 :: fs[1..][i] == fs[i + 1] && pieces[1..][i] == pieces[i + 1];
      FlatIsWire(fs[1..], pieces[1..]);
      WrittenIff(fs[0], pieces[0]);
    }
  }

  /** Frames whose bytes are given digit by digit, up to the first final one, come out with their payloads joined
      under the last opcode that is not a continuation. */
  lemma WrittenMessageIsRead(fs: seq<Fragment>, pieces: seq<seq<Byte>>, tail: seq<Byte>, eof: bool, expectMask: bool)
    requires Message(fs, expectMask) && AllWritten(fs, pieces)
    ensures Parse(Flat(pieces) + tail, eof, expectMask, None, [])
         == Got(Frame(OpcodeOf(LastOpcode(fs, None)), Joined(fs)), tail)
  {
    FlatIsWire(fs, pieces);
    MessageIsRead(fs, tail, eof, expectMask, None, []);
    assert [] + Joined(fs) == Joined(fs);
  }

  /** The frame at this place has this opcode, and only continuations follow. */
  predicate NamedAt(fs: seq<Fragment>, i: nat, opcode: nat)
  {
    i < |fs| && fs[i].opcode == opcode && forall j | i < j < |fs| :: fs[j].opcode == 0
  }

  /** The last frame that is not a continuation has this opcode. */
  ghost predicate Named(fs: seq<Fragment>, opcode: nat) { exists i: nat :: NamedAt(fs, i, opcode) }

  lemma NamedNext(fs: seq<Fragment>, i: nat, name: nat)
    requires fs != []
    ensures NamedAt(fs, i + 1, name) <==> NamedAt(fs[1..], i, name)
  {
    assert forall j | 0 < j < |fs| :: fs[j] == fs[1..][j - 1];
  }

  lemma NamedRest(fs: seq<Fragment>, name: nat)
    requires fs != []
    ensures Named(fs, name)
       <==> Named(fs[1..], name) || (fs[0].opcode == name && forall f | f in fs[1..] :: f.opcode == 0)
  {
    if Named(fs[1..], name) {
      var i: nat :| NamedAt(fs[1..], i, name);
      NamedNext(fs, i, name);
    }
    if Named(fs, name) {
      var i: nat :| NamedAt(fs, i, name);
      if i > 0 { NamedNext(fs, i - 1, name); }
    }
    assert NamedAt(fs, 0, name) <==> fs[0].opcode == name && forall f | f in fs[1..] :: f.opcode == 0;
  }

  lemma {:induction false} LastOpcodeIff(fs: seq<Fragment>, opcode: Option<nat>, name: nat)
    requires name != 0
    ensures LastOpcode(fs, opcode) == Some(name)
       <==> Named(fs, name) || (opcode == Some(name) && forall f | f in fs :: f.opcode == 0)
    decreases |fs|
  {
    if fs != [] {
      LastOpcodeIff(fs[1..], Newest(opcode, fs[0].opcode), name);
      NamedRest(fs, name);
      assert fs == [fs[0]] + fs[1..];
    }
  }

  /** Any frames up to the first final one come out with their payloads joined; they come out under the opcode of
      the first exactly when the last of them that is not a continuation has that opcode. */
  lemma ReassembledIff(fs: seq<Fragment>, tail: seq<Byte>, eof: bool, expectMask: bool)
    requires Message(fs, expectMask) && fs[0].opcode != 0
    ensures Parse(WireAll(fs) + tail, eof, expectMask, None, []) == Got(Frame(fs[0].opcode, Joined(fs)), tail)
       <==> Named(fs, fs[0].opcode)
  {
    MessageIsRead(fs, tail, eof, expectMask, None, []);
    assert [] + Joined(fs) == Joined(fs);
    LastOpcodeIff(fs, None, fs[0].opcode);
    SomeOpcode(fs, None);
  }

  lemma {:induction false} SomeOpcode(fs: seq<Fragment>, opcode: Option<nat>)
    requires opcode.Some? || (fs != [] && fs[0].opcode != 0)
    ensures LastOpcode(fs, opcode).Some?
    decreases |fs|
  {
    if fs != [] {
      SomeOpcode(fs[1..], Newest(opcode, fs[0].opcode));
    }
  }

  lemma {:induction false} JoinedOfBoth(fs: seq<Fragment>, gs: seq<Fragment>)
    ensures Joined(fs + gs) == Joined(fs) + Joined(gs)
    decreases |fs|
  {
    if fs == [] {
      assert fs + gs == gs;
    } else {
      JoinedOfBoth(fs[1..], gs);
      assert (fs + gs)[1..] == fs[1..] + gs;
    }
  }

  lemma {:induction false} LastOpcodeWins(fs: seq<Fragment>, last: Fragment, opcode: Option<nat>)
    requires last.opcode != 0
    ensures LastOpcode(fs + [last], opcode) == Some(last.opcode)
    decreases |fs|
  {
    if fs == [] {
      assert fs + [last] == [last];
    } else {
      LastOpcodeWins(fs[1..], last, Newest(opcode, fs[0].opcode));
      assert (fs + [last])[1..] == fs[1..] + [last];
    }
  }

  /** A control frame in the middle of a message is not kept apart: it ends the message. The pieces so far
      come out glued to the control payload, under the control opcode, and the pieces after it come out as
      a message of their own, as text: opcode 1, RFC 6455, section 5.2. */
  lemma ControlCutsTheMessage(begin: seq<Fragment>, control: Fragment, end: seq<Fragment>, tail: seq<Byte>, eof: bool,
                              expectMask: bool)
    requires Message(begin + [control], expectMask) && control.opcode >= 8
    requires Message(end, expectMask) && forall f | f in end :: f.opcode == 0
    ensures Parse(WireAll(begin + [control]) + (WireAll(end) + tail), eof, expectMask, None, [])
         == Got(Frame(control.opcode, Joined(begin) + control.payload), WireAll(end) + tail)
    ensures Parse(WireAll(end) + tail, eof, expectMask, None, []) == Got(Frame(1, Joined(end)), tail)
  {
    MessageIsRead(begin + [control], WireAll(end) + tail, eof, expectMask, None, []);
    JoinedOfBoth(begin, [control]);
    LastOpcodeWins(begin, control, None);
    assert Joined([control]) == control.payload + [] == control.payload;
    assert [] + Joined(begin + [control]) == Joined(begin) + control.payload;
    MessageIsRead(end, tail, eof, expectMask, None, []);
    ContinuationsKeepOpcode(end, None);
    assert [] + Joined(end) == Joined(end);
  }

  /** A message that was cut short is never delivered. */
  lemma {:induction false} CutMessage(fs: seq<Fragment>, cut: nat, eof: bool, expectMask: bool, opcode: Option<nat>,
                                      acc: seq<Byte>)
    requires Message(fs, expectMask) && cut < |WireAll(fs)|
    ensures var o := Parse(WireAll(fs)[..cut], eof, expectMask, opcode, acc);
            o == Failed(Incomplete) || (eof && o == Disconnected)
    decreases |fs|
  {
    RestOfMessage(fs, expectMask);
    var f, more := fs[0], fs[1..];
    CutBoth(Wire(f), WireAll(more), cut);
    if cut < |Wire(f)| {
      CutFrame(f, cut, eof, expectMask);
    } else {
      OneMore(f, WireAll(more)[..cut - |Wire(f)|], eof, expectMask, opcode, acc);
      CutMessage(more, cut - |Wire(f)|, eof, expectMask, Newest(opcode, f.opcode), acc + f.payload);
    }
  }

  // ---------------------------------------------------------------------- lists of frames

  /** A reader that takes one message after the other until there is none. */
  function ReadAll(s: seq<Byte>, eof: bool, expectMask: bool): (seq<Frame>, Outcome)
    decreases |s|
  {
    match Parse(s, eof, expectMask, None, [])
    case Got(frame, rest) => var more := ReadAll(rest, eof, expectMask); ([frame] + more.0, more.1)
    case other => ([], other)
  }

  function EncodeAll(frames: seq<Frame>): seq<Byte>
    requires forall f | f in frames :: f.opcode < 256 && |f.payload| < Power(8)
  {
    if frames == [] then [] else Encode(frames[0].payload, frames[0].opcode) + EncodeAll(frames[1..])
  }

  /** The first byte of a frame matters only by its final bit and its low four bits. */
  lemma SameFirstByte(s: seq<Byte>, first: Byte, eof: bool, expectMask: bool)
    requires |s| >= 2 && (s[0] >= 128 <==> first >= 128) && s[0] % 16 == first % 16
    ensures ReadPiece(s[0 := first], eof, expectMask) == ReadPiece(s, eof, expectMask)
  {
    var t := s[0 := first];
    if |s| >= 4 { assert t[2..4] == s[2..4]; }
    if |s| >= 10 { assert t[2..10] == s[2..10]; }
    assert ReadHead(t) == ReadHead(s);
    if ReadHead(s).Some? {
      SamePiece(s, first, ReadHead(s).value);
    }
  }

  lemma SamePiece(s: seq<Byte>, first: Byte, h: Head)
    requires 2 <= h.size <= |s|
    ensures PieceAfter(h, s[0 := first]) == PieceAfter(h, s)
  {
    var t, start := s[0 := first], if h.masked then h.size + 4 else h.size;
    if start + h.length <= |s| {
      assert t[start..start + h.length] == s[start..start + h.length];
      assert t[start + h.length..] == s[start + h.length..];
      if h.masked { assert t[h.size..h.size + 4] == s[h.size..h.size + 4]; }
    }
  }

  lemma EncodedIsRead(payload: seq<Byte>, opcode: Byte, tail: seq<Byte>, eof: bool)
    requires |payload| < Power(8)
    ensures ReadPiece(Encode(payload, opcode) + tail, eof, false)
         == if |payload| > MAX_PAYLOAD then Broken(TooLong) else Piece(true, opcode % 16, payload, tail)
  {
    var s, t := Encode(payload, opcode) + tail, Encode(payload, opcode % 16) + tail;
    EncodeIsWire(payload, opcode);
    EncodeIsWire(payload, opcode % 16);
    assert s == t[0 := s[0]];
    SameFirstByte(t, s[0], eof, false);
    WireIsRead(ServerFragment(payload, opcode % 16), tail, eof, false);
  }

  /** One encoded frame is read back as it was, exactly when its payload fits and its opcode is a four-bit
      one that is not the continuation. */
  lemma RoundTripIff(payload: seq<Byte>, opcode: Byte, tail: seq<Byte>, eof: bool)
    requires |payload| < Power(8)
    ensures Parse(Encode(payload, opcode) + tail, eof, false, None, []) == Got(Frame(opcode, payload), tail)
       <==> |payload| <= MAX_PAYLOAD && 1 <= opcode < 16
  {
    EncodedIsRead(payload, opcode, tail, eof);
    assert [] + payload == payload;
  }

  /** A list of frames comes back as that list, with nothing left over. */
  lemma {:induction false} ListRoundTrip(frames: seq<Frame>)
    requires forall f | f in frames :: 1 <= f.opcode < 16 && |f.payload| <= MAX_PAYLOAD
    ensures ReadAll(EncodeAll(frames), true, false) == (frames, Disconnected)
  {
    if frames != [] {
      var first, rest := frames[0], EncodeAll(frames[1..]);
      RoundTripIff(first.payload, first.opcode, rest, true);
      ListRoundTrip(frames[1..]);
      assert frames == [first] + frames[1..];
    }
  }

  // ------------------------------------------------------------ examples of RFC 6455, section 5.7

  const HELLO: seq<Byte> := [0x48, 0x65, 0x6c, 0x6c, 0x6f]

  /** A text message without a mask, as the server writes it. */
  lemma HelloIsWritten()
    ensures Encode(HELLO, 1) == [0x81, 0x05, 0x48, 0x65, 0x6c, 0x6c, 0x6f]
  {
  }

  lemma OneJoined(f: Fragment)
    ensures Joined([f]) == f.payload && LastOpcode([f], None) == Newest(None, f.opcode)
    ensures Proper(f) ==> WireAll([f]) == Wire(f)
  {
    assert [f][1..] == [] && f.payload + [] == f.payload;
    if Proper(f) { assert Wire(f) + [] == Wire(f); }
  }

  lemma TwoFramesAreRead(f: Fragment, g: Fragment, bytes: seq<Byte>, tail: seq<Byte>, eof: bool, expectMask: bool)
    requires Message([f, g], expectMask) && f.opcode != 0 && g.opcode == 0 && bytes == Wire(f) + Wire(g)
    ensures Parse(bytes + tail, eof, expectMask, None, []) == Got(Frame(f.opcode, f.payload + g.payload), tail)
  {
    OneJoined(g);
    assert [f, g][1..] == [g];
    SplitMessageReassembles([f, g], tail, eof, expectMask);
  }

  /** The same from a peer in two pieces. */
  lemma SplitHelloIsRead(bytes: seq<Byte>, tail: seq<Byte>, eof: bool)
    requires bytes == [0x01, 0x03, 0x48, 0x65, 0x6c] + [0x80, 0x02, 0x6c, 0x6f]
    ensures Parse(bytes + tail, eof, false, None, []) == Got(Frame(1, HELLO), tail)
  {
    var f, g := Fragment(false, 1, None, Short, [0x48, 0x65, 0x6c]), Fragment(true, 0, None, Short, [0x6c, 0x6f]);
    assert Wire(f) == [0x01, 0x03, 0x48, 0x65, 0x6c] && Wire(g) == [0x80, 0x02, 0x6c, 0x6f];
    assert f.payload + g.payload == HELLO;
    TwoFramesAreRead(f, g, bytes, tail, eof, false);
  }
}
