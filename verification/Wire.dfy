/** The WebSocket frame codec: the byte layout of section 5.2 of RFC 6455, the decoder
    the endpoint runs on what clients send, and the encoder for what it sends back. */
module Wire {
  import opened Bytes

  /** Everything the endpoint reports through its error callback. */
  datatype Cause =
    | UnsupportedRsv | UnmaskedFrame | NonMinimalLength | InvalidLength | LengthTooLarge
    | InvalidControlFrame | FrameTooLarge
    | UnsupportedOpcode | UnexpectedContinuation | IncompleteMessage | MessageTooLarge
    | InvalidClose | InputOverLimit | EndedInsideFrame | HandlerFailed

  /** A frame as the endpoint sees it: reserved bits checked, payload unmasked. */
  datatype Frame = Frame(fin: bool, opcode: nat, payload: seq<byte>)

  /** A frame as section 5.2 lays it out; `payload` is the application data. */
  datatype RawFrame = RawFrame(fin: bool, rsv: nat, opcode: nat, key: Option<seq<byte>>, payload: seq<byte>)

  const MAX_FRAME_LENGTH := 0x7FFF_FFFF_FFFF_FFFF

  ghost predicate WellFormed(f: RawFrame) {
    f.rsv < 8 && f.opcode < 16 && (f.key.Some? ==> |f.key.value| == 4) && |f.payload| <= MAX_FRAME_LENGTH
  }

  function Masked(payload: seq<byte>, key: seq<byte>): (r: seq<byte>)
    requires |key| == 4
    ensures |r| == |payload|
  {
    seq(|payload|, i requires 0 <= i < |payload| => Xor(payload[i], key[i % 4]))
  }

  lemma {:induction false} MaskingInverts(payload: seq<byte>, key: seq<byte>)
    requires |key| == 4
    ensures Masked(Masked(payload, key), key) == payload
  {
    forall i | 0 <= i < |payload| ensures Masked(Masked(payload, key), key)[i] == payload[i] {
      XorInvolutive(payload[i], key[i % 4]);
    }
  }

  // ---------------------------------------------------------------- section 5.2

  /** The second byte and the extended length: the shortest form that fits. */
  function LengthField(n: nat, masked: bool): (field: seq<byte>)
    requires n <= MAX_FRAME_LENGTH
    ensures |field| > 0
  {
    var bit := if masked then 128 else 0;
    if n < 126 then [bit + n]
    else if n <= 0xffff then [bit + 126] + ToBigEndian(n, 2)
    else [bit + 127] + ToBigEndian(n, 8)
  }

  function Layout(f: RawFrame): seq<byte>
    requires WellFormed(f)
  {
    [(if f.fin then 128 else 0) + 16 * f.rsv + f.opcode] + LengthField(|f.payload|, f.key.Some?)
    + Body(f)
  }

  datatype Decoded = Incomplete | Malformed | Complete(frame: RawFrame, size: nat)

  /** How many bytes the extended length takes. */
  function ExtendedSize(form: nat): nat {
    if form == 126 then 2 else if form == 127 then 8 else 0
  }

  datatype Length = TooShort | NotMinimal | Length(masked: bool, value: nat, size: nat)

  /** The payload length at the front of `b`, in one, three or nine bytes. */
  function DecodeLength(b: seq<byte>): Length {
    if b == [] then TooShort else
    var form, extended := b[0] % 128, ExtendedSize(b[0] % 128);
    if |b| < 1 + extended then TooShort else
    var value := if extended == 0 then form else BigEndian(b[1..1 + extended]);
    if (extended == 2 && value < 126) || (extended == 8 && (value <= 0xffff || value > MAX_FRAME_LENGTH))
    then NotMinimal
    else Length(b[0] >= 128, value, 1 + extended)
  }

  /** The key, if any, and the application data that follow the length. */
  function DecodeBody(b: seq<byte>, masked: bool, length: nat): Option<(Option<seq<byte>>, seq<byte>)> {
    if masked then
      if |b| < 4 + length then None
      else Some((Some(b[..4]), Masked(b[4..4 + length], b[..4])))
    else if |b| < length then None
    else Some((None, b[..length]))
  }

  /** The reference decoder: one frame off the front, whoever sent it. */
  function Decode(b: seq<byte>): Decoded {
    if b == [] then Incomplete else
    match DecodeLength(b[1..])
    case TooShort => Incomplete
    case NotMinimal => Malformed
    case Length(masked, length, size) =>
      match DecodeBody(b[1 + size..], masked, length)
      case None => Incomplete
      case Some((key, payload)) =>
        Complete(RawFrame(b[0] >= 128, (b[0] / 16) % 8, b[0] % 16, key, payload),
                 1 + size + (if masked then 4 else 0) + length)
  }

  lemma {:induction false} Pow256Values()
    ensures Pow256(2) == 0x1_0000
    ensures Pow256(8) == 0x1_0000_0000_0000_0000
  {
    assert Pow256(2) == 256 * 256;
    assert Pow256(4) == 256 * 256 * Pow256(2);
    assert Pow256(6) == 256 * 256 * Pow256(4);
    assert Pow256(8) == 256 * 256 * Pow256(6);
  }

  lemma {:induction false} LengthDecodes(n: nat, masked: bool, rest: seq<byte>)
    requires n <= MAX_FRAME_LENGTH
    ensures DecodeLength(LengthField(n, masked) + rest) == Length(masked, n, |LengthField(n, masked)|)
  {
    Pow256Values();
    var b := LengthField(n, masked) + rest;
    if 126 <= n <= 0xffff {
      BigEndianInverts(n, 2);
      assert b[1..3] == ToBigEndian(n, 2);
    } else if n > 0xffff {
      BigEndianInverts(n, 8);
      assert b[1..9] == ToBigEndian(n, 8);
    }
  }

  lemma {:induction false} DecodedLengthIsMinimal(b: seq<byte>)
    requires DecodeLength(b).Length?
    ensures var Length(masked, n, size) := DecodeLength(b);
            n <= MAX_FRAME_LENGTH && size <= |b| && b[..size] == LengthField(n, masked)
  {
    var size := DecodeLength(b).size;
    ToBigEndianInverts(b[1..size]);
    Pow256Values();
    assert b[..size] == [b[0]] + b[1..size];
  }

  function Body(f: RawFrame): seq<byte>
    requires WellFormed(f)
  {
    if f.key.Some? then f.key.value + Masked(f.payload, f.key.value) else f.payload
  }

  lemma {:induction false} BodyDecodes(f: RawFrame, rest: seq<byte>)
    requires WellFormed(f)
    ensures DecodeBody(Body(f) + rest, f.key.Some?, |f.payload|) == Some((f.key, f.payload))
  {
    var b, n := Body(f) + rest, |f.payload|;
    match f.key
    case None =>
      assert b[..n] == f.payload;
    case Some(key) =>
      assert b[..4] == key;
      assert b[4..4 + n] == Masked(f.payload, key);
      MaskingInverts(f.payload, key);
  }

  lemma {:induction false} FirstByte(fin: bool, rsv: nat, opcode: nat)
    requires rsv < 8 && opcode < 16
    ensures var first := (if fin then 128 else 0) + 16 * rsv + opcode;
            (first >= 128 <==> fin) && (first / 16) % 8 == rsv && first % 16 == opcode
  {
    var first := (if fin then 128 else 0) + 16 * rsv + opcode;
    assert first / 16 == (if fin then 8 else 0) + rsv;
  }

  lemma {:induction false} Regroup(a: seq<byte>, b: seq<byte>, c: seq<byte>, d: seq<byte>)
    ensures (a + b + c) + d == a + b + (c + d)
    ensures |a + b + c| == |a| + |b| + |c|
  {
  }

  lemma {:induction false} DecodeParts(first: byte, field: seq<byte>, rest: seq<byte>)
    requires var l := DecodeLength(field + rest);
             l.Length? && l.size == |field| && DecodeBody(rest, l.masked, l.value).Some?
    ensures var l := DecodeLength(field + rest);
            var (key, payload) := DecodeBody(rest, l.masked, l.value).value;
            Decode([first] + field + rest)
            == Complete(RawFrame(first >= 128, (first / 16) % 8, first % 16, key, payload),
                        1 + |field| + (if l.masked then 4 else 0) + l.value)
  {
    var b := [first] + field + rest;
    assert b[1..] == field + rest;
    assert b[1 + |field|..] == rest;
  }

  /** Decoding inverts the layout, whatever follows the frame. */
  lemma {:induction false} DecodeInvertsLayout(f: RawFrame, rest: seq<byte>)
    requires WellFormed(f)
    ensures Decode(Layout(f) + rest) == Complete(f, |Layout(f)|)
  {
    hide LengthField, DecodeLength, DecodeBody, Decode;
    var first := (if f.fin then 128 else 0) + 16 * f.rsv + f.opcode;
    var field, tail := LengthField(|f.payload|, f.key.Some?), Body(f) + rest;
    FirstByte(f.fin, f.rsv, f.opcode);
    LengthDecodes(|f.payload|, f.key.Some?, tail);
    BodyDecodes(f, rest);
    DecodeParts(first, field, tail);
    Regroup([first], field, Body(f), rest);
  }

  lemma {:induction false} Cut(b: seq<byte>, i: nat, n: nat)
    requires 1 + i <= n <= |b|
    ensures b[..n] == [b[0]] + b[1..][..i] + b[1 + i..][..n - 1 - i]
  {
  }

  /** A decoded frame occupies exactly its own layout: there is no second spelling. */
  lemma {:induction false} LayoutInvertsDecode(b: seq<byte>)
    requires Decode(b).Complete?
    ensures var Complete(f, n) := Decode(b);
            WellFormed(f) && n <= |b| && b[..n] == Layout(f)
  {
    var Complete(f, n) := Decode(b);
    DecodedLengthIsMinimal(b[1..]);
    var Length(masked, length, size) := DecodeLength(b[1..]);
    var body := b[1 + size..];
    assert body[..n - 1 - size] == Body(f) by {
      if masked {
        MaskingInverts(body[4..4 + length], body[..4]);
        assert body[..4 + length] == body[..4] + body[4..4 + length];
      }
    }
    Cut(b, size, n);
  }

  // ---------------------------------------------------------------- the endpoint's decoder

  datatype Parse = NeedMore | Fail(cause: Cause, code: nat) | Parsed(frame: Frame, size: nat)

  /** `#readFrame` up to the point where it hands the frame on. */
  function ReadFrame(b: seq<byte>, maxMessageBytes: nat): Parse {
    if |b| < 2 then NeedMore
    else if (b[0] / 16) % 8 != 0 then Fail(UnsupportedRsv, 1002)
    else if b[1] < 128 then Fail(UnmaskedFrame, 1002)
    else if b[1] % 128 == 126 then
      if |b| < 4 then NeedMore
      else if BigEndian(b[2..4]) < 126 then Fail(NonMinimalLength, 1002)
      else ReadPayload(b, 4, BigEndian(b[2..4]), maxMessageBytes)
    else if b[1] % 128 == 127 then
      if |b| < 10 then NeedMore
      else if b[2] >= 128 then Fail(InvalidLength, 1002)
      else if BigEndian(b[2..10]) > MAX_SAFE_INTEGER then Fail(LengthTooLarge, 1009)
      else if BigEndian(b[2..10]) <= 0xffff then Fail(NonMinimalLength, 1002)
      else ReadPayload(b, 10, BigEndian(b[2..10]), maxMessageBytes)
    else ReadPayload(b, 2, b[1] % 128, maxMessageBytes)
  }

  function ReadPayload(b: seq<byte>, offset: nat, length: nat, maxMessageBytes: nat): Parse
    requires 2 <= offset <= |b|
  {
    var fin, opcode := b[0] >= 128, b[0] % 16;
    if opcode >= 8 && (!fin || length > 125) then Fail(InvalidControlFrame, 1002)
    else if length > maxMessageBytes then
      if opcode >= 8 then Fail(InvalidControlFrame, 1002) else Fail(FrameTooLarge, 1009)
    else if |b| < offset + 4 + length then NeedMore
    else Parsed(Frame(fin, opcode, Masked(b[offset + 4..offset + 4 + length], b[offset..offset + 4])),
                offset + 4 + length)
  }

  /** What the endpoint accepts from a client, said about the layout of section 5.2. */
  ghost predicate Acceptable(f: RawFrame, maxMessageBytes: nat) {
    && f.rsv == 0 && f.key.Some?
    && |f.payload| <= maxMessageBytes
    && (f.opcode >= 8 ==> f.fin && |f.payload| <= 125)
  }

  lemma {:induction false} SignBit(b: seq<byte>)
    requires |b| == 8
    ensures b[0] >= 128 <==> BigEndian(b) > MAX_FRAME_LENGTH
  {
    var low := b[1..];
    BigEndianSplit([b[0]], low);
    assert b == [b[0]] + low;
    assert BigEndian([b[0]]) == b[0] by {
      assert [b[0]][..0] == [];
    }
    ToBigEndianInverts(low);
    Pow256Values();
    assert Pow256(8) == 256 * Pow256(7);
    var high, rest, p := b[0] as int, BigEndian(low), Pow256(7);
    hide *;
    assert p == 0x100_0000_0000_0000;
    assert BigEndian(b) == high * 0x100_0000_0000_0000 + rest;
  }

  /** The reference decoder's length, read at the endpoint's offsets. */
  lemma {:induction false} LengthAt(b: seq<byte>)
    requires |b| >= 2
    ensures var e := ExtendedSize(b[1] % 128);
            DecodeLength(b[1..]) ==
            if |b| < 2 + e then TooShort
            else if e == 0 then Length(b[1] >= 128, b[1] % 128, 1)
            else
              var value := BigEndian(b[2..2 + e]);
              if (if e == 2 then value < 126 else value <= 0xffff || b[2] >= 128) then NotMinimal
              else Length(b[1] >= 128, value, 1 + e)
  {
    var e := ExtendedSize(b[1] % 128);
    if |b| >= 2 + e {
      Reslice(b, 1, 1, 1 + e);
      if e == 8 {
        SignBit(b[2..10]);
      }
    }
  }

  lemma {:induction false} BodyAt(b: seq<byte>, offset: nat, n: nat)
    requires offset <= |b|
    ensures DecodeBody(b[offset..], true, n) ==
            if |b| < offset + 4 + n then None
            else Some((Some(b[offset..offset + 4]), Masked(b[offset + 4..offset + 4 + n], b[offset..offset + 4])))
  {
    if |b| >= offset + 4 + n {
      Reslice(b, offset, 0, 4);
      Reslice(b, offset, 4, 4 + n);
    }
  }

  /** The endpoint's decoder and the reference decoder agree frame for frame, and while
      the endpoint waits the reference decoder has not seen a whole frame either. */
  lemma {:induction false} ReadFrameRefinesDecode(b: seq<byte>, maxMessageBytes: nat)
    requires maxMessageBytes <= MAX_SAFE_INTEGER
    ensures ReadFrame(b, maxMessageBytes).Parsed?
            <==> Decode(b).Complete? && Acceptable(Decode(b).frame, maxMessageBytes)
    ensures ReadFrame(b, maxMessageBytes).Parsed? ==>
              var f := Decode(b).frame;
              ReadFrame(b, maxMessageBytes) == Parsed(Frame(f.fin, f.opcode, f.payload), Decode(b).size)
    ensures ReadFrame(b, maxMessageBytes).NeedMore? ==> Decode(b).Incomplete?
  {
    if |b| >= 2 {
      LengthAt(b);
      var length := DecodeLength(b[1..]);
      if length.Length? && length.masked {
        BodyAt(b, 1 + length.size, length.value);
      }
    }
    hide BigEndian, Masked, DecodeLength, DecodeBody;
  }

  /** Why a header is refused, and with which close code: 1009 for what is too long, 1002 for what
      breaks the protocol. Said about the reference decoder's reading of the header. */
  function Refusal(b: seq<byte>, maxMessageBytes: nat): Option<(Cause, nat)>
    requires |b| >= 2
  {
    var fin, rsv, opcode, masked := b[0] / 128 == 1, (b[0] / 16) % 8, b[0] % 16, b[1] / 128 == 1;
    if rsv != 0 then Some((UnsupportedRsv, 1002))
    else if !masked then Some((UnmaskedFrame, 1002))
    else match DecodeLength(b[1..])
      case TooShort => None
      case NotMinimal =>
        Some((if b[1] == 128 + 127 && b[2] / 128 == 1 then InvalidLength else NonMinimalLength, 1002))
      case Length(_, n, _) =>
        if n > MAX_SAFE_INTEGER then Some((LengthTooLarge, 1009))
        else if opcode >= 8 && !(fin && n <= 125 && n <= maxMessageBytes) then Some((InvalidControlFrame, 1002))
        else if n > maxMessageBytes then Some((FrameTooLarge, 1009))
        else None
  }

  /** The endpoint fails exactly on a header that is refused, as soon as it can be read and before
      the payload has arrived, and reports that refusal. */
  lemma {:induction false} FailsAsRefused(b: seq<byte>, maxMessageBytes: nat)
    ensures |b| < 2 ==> ReadFrame(b, maxMessageBytes) == NeedMore
    ensures |b| >= 2 ==>
              match Refusal(b, maxMessageBytes)
              case Some((cause, code)) => ReadFrame(b, maxMessageBytes) == Fail(cause, code)
              case None => !ReadFrame(b, maxMessageBytes).Fail?
  {
    if |b| >= 2 {
      LengthAt(b);
      Pow256Values();
      if |b| >= 4 {
        ToBigEndianInverts(b[2..4]);
      }
    }
    hide BigEndian, Masked, DecodeLength;
  }

  lemma {:induction false} SliceOfPrefix(b: seq<byte>, more: seq<byte>, i: nat, j: nat)
    requires i <= j <= |b|
    ensures (b + more)[i..j] == b[i..j]
  {
  }

  /** More input never changes a frame already recognised, nor a failure already found. */
  lemma {:induction false} ReadFrameStable(b: seq<byte>, more: seq<byte>, maxMessageBytes: nat)
    requires !ReadFrame(b, maxMessageBytes).NeedMore?
    ensures ReadFrame(b + more, maxMessageBytes) == ReadFrame(b, maxMessageBytes)
  {
    var c := b + more;
    if |b| >= 4 {
      SliceOfPrefix(b, more, 2, 4);
    }
    if |b| >= 10 {
      SliceOfPrefix(b, more, 2, 10);
    }
    if ReadFrame(b, maxMessageBytes).Parsed? {
      var n := ReadFrame(b, maxMessageBytes).size;
      var offset := 2 + ExtendedSize(b[1] % 128);
      SliceOfPrefix(b, more, offset, offset + 4);
      SliceOfPrefix(b, more, offset + 4, n);
    }
  }

  /** A failure is final: no continuation of the input holds an acceptable frame. */
  lemma {:induction false} FailureIsFinal(b: seq<byte>, more: seq<byte>, maxMessageBytes: nat)
    requires maxMessageBytes <= MAX_SAFE_INTEGER
    requires ReadFrame(b, maxMessageBytes).Fail?
    ensures !(Decode(b + more).Complete? && Acceptable(Decode(b + more).frame, maxMessageBytes))
  {
    ReadFrameStable(b, more, maxMessageBytes);
    ReadFrameRefinesDecode(b + more, maxMessageBytes);
  }

  /** A consumed frame is at least six bytes, and input that must wait is bounded. */
  lemma {:induction false} ReadFrameSizes(b: seq<byte>, maxMessageBytes: nat)
    ensures var r := ReadFrame(b, maxMessageBytes);
            && (r.Parsed? ==> 6 <= r.size <= |b| && |r.frame.payload| <= maxMessageBytes)
            && (r.Parsed? && r.frame.opcode >= 8 ==> |r.frame.payload| <= 125)
            && (r.Parsed? ==> r.frame.opcode < 16)
            && (r.Fail? ==> r.code == 1002 || r.code == 1009)
            && (r.NeedMore? ==> |b| < maxMessageBytes + 14)
  {
  }

  /** A client frame of any legal size, under any key, is read back to itself. */
  lemma {:induction false} ClientFrameRoundTrip(f: Frame, key: seq<byte>, rest: seq<byte>, maxMessageBytes: nat)
    requires maxMessageBytes <= MAX_SAFE_INTEGER && f.opcode < 16 && |key| == 4
    requires Acceptable(RawFrame(f.fin, 0, f.opcode, Some(key), f.payload), maxMessageBytes)
    ensures var wire := Layout(RawFrame(f.fin, 0, f.opcode, Some(key), f.payload));
            ReadFrame(wire + rest, maxMessageBytes) == Parsed(f, |wire|)
  {
    var raw := RawFrame(f.fin, 0, f.opcode, Some(key), f.payload);
    DecodeInvertsLayout(raw, rest);
    ReadFrameRefinesDecode(Layout(raw) + rest, maxMessageBytes);
  }

  /** The only length field the endpoint accepts for n bytes is the one its own encoder
      writes for n, with the mask bit set. */
  lemma {:induction false} LengthCodecsAgree(b: seq<byte>, maxMessageBytes: nat)
    requires maxMessageBytes <= MAX_SAFE_INTEGER
    requires ReadFrame(b, maxMessageBytes).Parsed?
    ensures var Parsed(f, n) := ReadFrame(b, maxMessageBytes);
            && var field := LengthField(|f.payload|, true);
            && var written := LengthField(|f.payload|, false);
            && b[1..1 + |field|] == field
            && field == [written[0] + 128] + written[1..]
            && n == 5 + |field| + |f.payload|
  {
    ReadFrameRefinesDecode(b, maxMessageBytes);
    LayoutInvertsDecode(b);
    MaskBit(|Decode(b).frame.payload|);
    var Complete(f, size) := Decode(b);
    var field := LengthField(|f.payload|, true);
    LayoutField(f);
    hide *;
    SliceOfPrefix(b[..size], b[size..], 1, 1 + |field|);
    assert b == b[..size] + b[size..];
  }

  lemma {:induction false} LayoutField(f: RawFrame)
    requires WellFormed(f)
    ensures var field := LengthField(|f.payload|, f.key.Some?);
            && |Layout(f)| == 1 + |field| + |f.payload| + (if f.key.Some? then 4 else 0)
            && Layout(f)[1..1 + |field|] == field
  {
  }

  lemma {:induction false} MaskBit(n: nat)
    requires n <= MAX_FRAME_LENGTH
    ensures LengthField(n, true) == [LengthField(n, false)[0] + 128] + LengthField(n, false)[1..]
  {
  }

  // ---------------------------------------------------------------- the endpoint's encoder

  /** What the server sends: final, unmasked, no reserved bits. */
  function ServerFrame(opcode: nat, payload: seq<byte>): RawFrame {
    RawFrame(true, 0, opcode, None, payload)
  }

  /** Header bytes a server frame with `n` payload bytes starts with. */
  function ServerHeader(opcode: nat, n: nat): seq<byte>
    requires opcode < 16 && n <= MAX_SAFE_INTEGER
  {
    [128 + opcode] + LengthField(n, false)
  }

  lemma {:induction false} ServerLayout(opcode: nat, payload: seq<byte>)
    requires opcode < 16 && |payload| <= MAX_SAFE_INTEGER
    ensures Layout(ServerFrame(opcode, payload)) == ServerHeader(opcode, |payload|) + payload
  {
  }

  method WriteHeader(frame: array<byte>, opcode: nat, length: nat, headerLength: nat)
    requires opcode < 16 && length <= MAX_SAFE_INTEGER
    requires headerLength == (if length < 126 then 2 else if length <= 0xffff then 4 else 10) <= frame.Length
    modifies frame
    ensures frame[..headerLength] == ServerHeader(opcode, length)
  {
    frame[0] := 128 + opcode;
    if headerLength == 2 {
      frame[1] := length;
    } else if headerLength == 4 {
      frame[1] := 126;
      CopyInto(frame, 2, ToBigEndian(length, 2));
    } else {
      frame[1] := 127;
      CopyInto(frame, 2, ToBigEndian(length, 8));
    }
  }

  /** `encodeFrame`: size the header, then fill it in place. */
  method EncodeFrame(opcode: nat, payload: seq<byte>) returns (frame: array<byte>)
    requires opcode < 16 && |payload| <= MAX_SAFE_INTEGER
    ensures fresh(frame) && frame[..] == Layout(ServerFrame(opcode, payload))
  {
    var headerLength := 2;
    if 126 <= |payload| <= 0xffff {
      headerLength := 4;
    } else if |payload| > 0xffff {
      headerLength := 10;
    }
    ServerLayout(opcode, payload);
    hide *;
    frame := new byte[headerLength + |payload|](_ => 0);
    WriteHeader(frame, opcode, |payload|, headerLength);
    CopyInto(frame, headerLength, payload);
    assert frame[..] == frame[..headerLength + |payload|];
  }

  /** A run of frames off the front of a byte string, until the bytes are used up. */
  function DecodeAll(b: seq<byte>): Option<seq<RawFrame>> {
    if b == [] then Some([]) else
    match Decode(b)
    case Complete(f, n) =>
      if 0 < n <= |b| then
        var rest := DecodeAll(b[n..]);
        if rest.Some? then Some([f] + rest.value) else None
      else None
    case _ => None
  }

  function LayoutAll(frames: seq<RawFrame>): seq<byte>
    requires forall f <- frames :: WellFormed(f)
  {
    if frames == [] then [] else Layout(frames[0]) + LayoutAll(frames[1..])
  }

  lemma {:induction false} LayoutAllAppend(frames: seq<RawFrame>, last: RawFrame)
    requires (forall f <- frames :: WellFormed(f)) && WellFormed(last)
    ensures forall f <- frames + [last] :: WellFormed(f)
    ensures LayoutAll(frames + [last]) == LayoutAll(frames) + Layout(last)
  {
    if frames == [] {
      assert [] + [last] == [last] && [last][1..] == [];
    } else {
      LayoutAllAppend(frames[1..], last);
      assert (frames + [last])[1..] == frames[1..] + [last];
      Associate(Layout(frames[0]), LayoutAll(frames[1..]), Layout(last));
    }
    hide Layout;
  }

  lemma {:induction false} DecodeAllStep(first: seq<byte>, rest: seq<byte>)
    requires first != [] && Decode(first + rest).Complete? && Decode(first + rest).size == |first|
    requires DecodeAll(rest).Some?
    ensures DecodeAll(first + rest) == Some([Decode(first + rest).frame] + DecodeAll(rest).value)
  {
    assert (first + rest)[|first|..] == rest;
  }

  /** A run of laid-out frames decodes to exactly those frames, in order. */
  lemma {:induction false} DecodeAllInverts(frames: seq<RawFrame>)
    requires forall f <- frames :: WellFormed(f)
    ensures DecodeAll(LayoutAll(frames)) == Some(frames)
  {
    if frames != [] {
      var first, rest := Layout(frames[0]), LayoutAll(frames[1..]);
      DecodeInvertsLayout(frames[0], rest);
      DecodeAllInverts(frames[1..]);
      DecodeAllStep(first, rest);
      assert frames == [frames[0]] + frames[1..];
    }
  }
}
