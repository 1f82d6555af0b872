/** The binary frames that peers exchange. Resource ids are raw bytes. */
module Wire {
  import opened Bitfields
  import opened Bytes
  import opened ByteValues
  import opened Results

  const PROTOCOL_VERSION: bv8 := 1

  const MAX_ID_LENGTH: nat := 255

  const U32_LIMIT: int := 0x1_0000_0000

  datatype WireMessage =
    | Bitfield(id: Bytes, totalChunks: int, bits: Bytes)
    | Have(id: Bytes, chunk: int)
    | Request(id: Bytes, chunk: int)
    | Piece(id: Bytes, chunk: int, offset: int, total: int, data: Bytes)
    | Choke(id: Bytes)
    | Unchoke(id: Bytes)

  datatype WireError =
    | IdTooLong | NegativeField
    | PacketTooShort | UnsupportedVersion | IdBeyondPacket
    | Truncated | BitfieldLengthMismatch | UnknownOpcode

  // ---------------------------------------------------------------- 32-bit fields, big-endian

  /** `DataView.setUint32` keeps the value modulo 2^32. */
  function U32(v: int): (r: Bytes)
    ensures |r| == 4
  {
    var w := v % U32_LIMIT;
    var w1 := w / 0x100;
    var w2 := w1 / 0x100;
    [ToByte(w2 / 0x100), ToByte(w2 % 0x100), ToByte(w1 % 0x100), ToByte(w % 0x100)]
  }

  function FourBytes(a: nat, b: nat, c: nat, d: nat): nat {
    ((a * 0x100 + b) * 0x100 + c) * 0x100 + d
  }

  function GetU32(bytes: Bytes, at: nat): (v: nat)
    requires at + 4 <= |bytes|
    ensures v < U32_LIMIT
  {
    FourBytes(FromByte(bytes[at]), FromByte(bytes[at + 1]), FromByte(bytes[at + 2]), FromByte(bytes[at + 3]))
  }

  lemma FieldReadBack(bytes: Bytes, at: nat, v: int)
    requires at + 4 <= |bytes| && bytes[at..at + 4] == U32(v)
    ensures GetU32(bytes, at) == v % U32_LIMIT
  {
    hide ToByte, FromByte;
    var w := v % U32_LIMIT;
    var w1 := w / 0x100;
    var w2 := w1 / 0x100;
    var field := bytes[at..at + 4];
    assert field[0] == bytes[at] && field[1] == bytes[at + 1] && field[2] == bytes[at + 2] && field[3] == bytes[at + 3];
    ByteRoundTrip(w2 / 0x100);
    ByteRoundTrip(w2 % 0x100);
    ByteRoundTrip(w1 % 0x100);
    ByteRoundTrip(w % 0x100);
  }

  lemma DigitsOf(q: nat, r: nat)
    requires r < 0x100
    ensures (q * 0x100 + r) / 0x100 == q && (q * 0x100 + r) % 0x100 == r
  {
  }

  lemma FieldOf(a: nat, b: nat, c: nat, d: nat)
    requires a < 0x100 && b < 0x100 && c < 0x100 && d < 0x100
    ensures U32(FourBytes(a, b, c, d)) == [ToByte(a), ToByte(b), ToByte(c), ToByte(d)]
  {
    hide ToByte;
    DigitsOf((a * 0x100 + b) * 0x100 + c, d);
    DigitsOf(a * 0x100 + b, c);
    DigitsOf(a, b);
  }

  lemma FieldRewritten(bytes: Bytes, at: nat)
    requires at + 4 <= |bytes|
    ensures U32(GetU32(bytes, at)) == bytes[at..at + 4]
  {
    hide ToByte, FromByte, U32;
    var a, b, c, d := FromByte(bytes[at]), FromByte(bytes[at + 1]), FromByte(bytes[at + 2]), FromByte(bytes[at + 3]);
    FieldOf(a, b, c, d);
    ByteRewritten(bytes[at]);
    ByteRewritten(bytes[at + 1]);
    ByteRewritten(bytes[at + 2]);
    ByteRewritten(bytes[at + 3]);
  }

  // ---------------------------------------------------------------- encoding

  function Opcode(m: WireMessage): bv8 {
    match m
    case Bitfield(_, _, _) => 1
    case Have(_, _) => 2
    case Request(_, _) => 3
    case Piece(_, _, _, _, _) => 4
    case Choke(_) => 5
    case Unchoke(_) => 6
  }

  function Header(opcode: bv8, id: Bytes): (r: Bytes)
    requires |id| <= MAX_ID_LENGTH
    ensures |r| == 3 + |id|
  {
    [PROTOCOL_VERSION, opcode, ToByte(|id|)] + id
  }

  function Payload(m: WireMessage): Bytes {
    match m
    case Bitfield(_, totalChunks, bits) => U32(totalChunks) + bits
    case Have(_, chunk) => U32(chunk)
    case Request(_, chunk) => U32(chunk)
    case Piece(_, chunk, offset, total, data) => U32(chunk) + U32(offset) + U32(total) + U32(|data|) + data
    case Choke(_) => []
    case Unchoke(_) => []
  }

  /** The negative fields that the encoders refuse; a BITFIELD's count is not among them. */
  predicate HasNegative(m: WireMessage) {
    match m
    case Have(_, chunk) => chunk < 0
    case Request(_, chunk) => chunk < 0
    case Piece(_, chunk, offset, total, _) => chunk < 0 || offset < 0 || total < 0
    case _ => false
  }

  function Encode(m: WireMessage): Result<Bytes, WireError> {
    if HasNegative(m) then Failure(NegativeField)
    else if |m.id| > MAX_ID_LENGTH then Failure(IdTooLong)
    else Success(Header(Opcode(m), m.id) + Payload(m))
  }

  // ---------------------------------------------------------------- decoding

  function DecodeBody(bytes: Bytes, opcode: bv8, id: Bytes, at: nat): Result<WireMessage, WireError>
    requires at <= |bytes|
  {
    if opcode == 1 then
      if |bytes| < at + 4 then Failure(Truncated)
      else
        var totalChunks := GetU32(bytes, at);
        if |bytes| - (at + 4) != RequiredBytes(totalChunks) then Failure(BitfieldLengthMismatch)
        else Success(Bitfield(id, totalChunks, bytes[at + 4..]))
    else if opcode == 2 then
      if |bytes| < at + 4 then Failure(Truncated) else Success(Have(id, GetU32(bytes, at)))
    else if opcode == 3 then
      if |bytes| < at + 4 then Failure(Truncated) else Success(Request(id, GetU32(bytes, at)))
    else if opcode == 4 then
      if |bytes| < at + 16 then Failure(Truncated)
      else
        var length := GetU32(bytes, at + 12);
        if |bytes| < at + 16 + length then Failure(Truncated)
        else
          Success(Piece(id, GetU32(bytes, at), GetU32(bytes, at + 4), GetU32(bytes, at + 8),
                        bytes[at + 16..at + 16 + length]))
    else if opcode == 5 then Success(Choke(id))
    else if opcode == 6 then Success(Unchoke(id))
    else Failure(UnknownOpcode)
  }

  function DecodeMessage(bytes: Bytes): Result<WireMessage, WireError> {
    if |bytes| < 3 then Failure(PacketTooShort)
    else if bytes[0] != PROTOCOL_VERSION then Failure(UnsupportedVersion)
    else
      var at := 3 + FromByte(bytes[2]);
      if |bytes| < at then Failure(IdBeyondPacket) else DecodeBody(bytes, bytes[1], bytes[3..at], at)
  }

  // ---------------------------------------------------------------- the inverse laws

  predicate IsU32(v: int) {
    0 <= v < U32_LIMIT
  }

  /** The messages that survive a round trip. */
  predicate Faithful(m: WireMessage) {
    && |m.id| <= MAX_ID_LENGTH
    && match m
       case Bitfield(_, totalChunks, bits) => IsU32(totalChunks) && |bits| == RequiredBytes(totalChunks)
       case Have(_, chunk) => IsU32(chunk)
       case Request(_, chunk) => IsU32(chunk)
       case Piece(_, chunk, offset, total, data) => IsU32(chunk) && IsU32(offset) && IsU32(total) && |data| < U32_LIMIT
       case Choke(_) => true
       case Unchoke(_) => true
  }

  lemma HeaderReadBack(opcode: bv8, id: Bytes, rest: Bytes)
    requires |id| <= MAX_ID_LENGTH
    ensures var bytes := Header(opcode, id) + rest;
      DecodeMessage(bytes) == DecodeBody(bytes, opcode, id, 3 + |id|)
  {
    var bytes := Header(opcode, id) + rest;
    ByteRoundTrip(|id|);
    assert bytes[3..3 + |id|] == id;
  }

  lemma PieceReadBack(m: WireMessage, head: Bytes, rest: Bytes)
    requires m.Piece? && Faithful(m)
    ensures DecodeBody(head + Payload(m) + rest, 4, m.id, |head|) == Success(m)
  {
    hide U32, GetU32, ToByte, FromByte;
    var at := |head|;
    var bytes := head + Payload(m) + rest;
    assert bytes[at..at + 4] == U32(m.chunk);
    assert bytes[at + 4..at + 8] == U32(m.offset);
    assert bytes[at + 8..at + 12] == U32(m.total);
    assert bytes[at + 12..at + 16] == U32(|m.data|);
    FieldReadBack(bytes, at, m.chunk);
    FieldReadBack(bytes, at + 4, m.offset);
    FieldReadBack(bytes, at + 8, m.total);
    FieldReadBack(bytes, at + 12, |m.data|);
    assert bytes[at + 16..at + 16 + |m.data|] == m.data;
  }

  lemma BodyReadBack(m: WireMessage, head: Bytes, rest: Bytes)
    requires Faithful(m) && (m.Bitfield? ==> rest == [])
    ensures DecodeBody(head + Payload(m) + rest, Opcode(m), m.id, |head|) == Success(m)
  {
    hide U32, GetU32, ToByte, FromByte;
    var at := |head|;
    var bytes := head + Payload(m) + rest;
    match m
    case Bitfield(_, totalChunks, bits) =>
      assert bytes[at..at + 4] == U32(totalChunks);
      FieldReadBack(bytes, at, totalChunks);
      assert bytes[at + 4..] == bits;
    case Have(_, chunk) =>
      assert bytes[at..at + 4] == U32(chunk);
      FieldReadBack(bytes, at, chunk);
    case Request(_, chunk) =>
      assert bytes[at..at + 4] == U32(chunk);
      FieldReadBack(bytes, at, chunk);
    case Piece(_, _, _, _, _) => PieceReadBack(m, head, rest);
    case Choke(_) =>
    case Unchoke(_) =>
  }

  /** A frame is read back whatever follows it; a BITFIELD only if nothing does. */
  lemma DecodesEncoding(m: WireMessage, rest: Bytes)
    requires Faithful(m) && (m.Bitfield? ==> rest == [])
    ensures Encode(m).Success? && DecodeMessage(Encode(m).value + rest) == Success(m)
  {
    hide DecodeBody, Payload;
    var head := Header(Opcode(m), m.id);
    assert head + Payload(m) + rest == head + (Payload(m) + rest);
    HeaderReadBack(Opcode(m), m.id, Payload(m) + rest);
    BodyReadBack(m, head, rest);
  }

  lemma DecodedIsFaithful(bytes: Bytes)
    requires DecodeMessage(bytes).Success?
    ensures Faithful(DecodeMessage(bytes).value)
  {
  }

  /** Encoding and decoding give a message back if and only if its fields fit their places. */
  lemma RoundTripExactly(m: WireMessage)
    ensures Faithful(m) <==> Encode(m).Success? && DecodeMessage(Encode(m).value) == Success(m)
  {
    hide DecodeMessage;
    if Faithful(m) {
      DecodesEncoding(m, []);
      assert Encode(m).value + [] == Encode(m).value;
    } else if Encode(m).Success? && DecodeMessage(Encode(m).value).Success? {
      DecodedIsFaithful(Encode(m).value);
    }
  }

  lemma WrapsAround(v: nat)
    ensures U32(v) == U32(v % U32_LIMIT)
  {
    hide ToByte;
    assert (v % U32_LIMIT) % U32_LIMIT == v % U32_LIMIT;
  }

  /** An index beyond 32 bits arrives reduced modulo 2^32. */
  lemma HaveWraps(id: Bytes, chunk: nat)
    requires |id| <= MAX_ID_LENGTH
    ensures var m := Have(id, chunk);
      Encode(m).Success? && DecodeMessage(Encode(m).value) == Success(Have(id, chunk % U32_LIMIT))
  {
    hide DecodeMessage, U32;
    var m, wrapped := Have(id, chunk), Have(id, chunk % U32_LIMIT);
    WrapsAround(chunk);
    assert Encode(m) == Encode(wrapped);
    DecodesEncoding(wrapped, []);
    assert Encode(wrapped).value + [] == Encode(wrapped).value;
  }

  /** A message that does not survive: the index 2^32 arrives as 0. */
  lemma LostMessageExample()
    ensures var m := Have([], 0x1_0000_0000);
      Encode(m).Success? && DecodeMessage(Encode(m).value) == Success(Have([], 0)) && !Faithful(m)
  {
    hide DecodeMessage, Encode;
    HaveWraps([], 0x1_0000_0000);
  }

  lemma BodyRewritten(bytes: Bytes, opcode: bv8, id: Bytes, at: nat)
    requires at <= |bytes| && DecodeBody(bytes, opcode, id, at).Success?
    ensures var m := DecodeBody(bytes, opcode, id, at).value;
      && Opcode(m) == opcode && m.id == id
      && Payload(m) <= bytes[at..] && (m.Bitfield? ==> Payload(m) == bytes[at..])
  {
    hide U32, GetU32, ToByte, FromByte;
    if opcode == 1 || opcode == 2 || opcode == 3 {
      FieldRewritten(bytes, at);
    } else if opcode == 4 {
      FieldRewritten(bytes, at);
      FieldRewritten(bytes, at + 4);
      FieldRewritten(bytes, at + 8);
      FieldRewritten(bytes, at + 12);
      var m := DecodeBody(bytes, opcode, id, at).value;
      assert Payload(m) == bytes[at..at + 16 + |m.data|];
    }
  }

  /** Re-encoding what an accepted byte string says gives a prefix of it, all of it for a BITFIELD. */
  lemma EncodesDecoding(bytes: Bytes)
    requires DecodeMessage(bytes).Success?
    ensures var m := DecodeMessage(bytes).value;
      && Encode(m).Success? && Encode(m).value <= bytes
      && (m.Bitfield? ==> Encode(m).value == bytes)
  {
    hide DecodeBody, Payload, ToByte, FromByte;
    var at := 3 + FromByte(bytes[2]);
    ByteRewritten(bytes[2]);
    var m := DecodeMessage(bytes).value;
    BodyRewritten(bytes, bytes[1], bytes[3..at], at);
    DecodedIsFaithful(bytes);
    assert Header(Opcode(m), m.id) == bytes[..at];
    assert bytes == bytes[..at] + bytes[at..];
  }

  /** The accepted byte strings are the faithful frames, with anything behind all but a BITFIELD. */
  lemma AcceptedExactly(bytes: Bytes)
    ensures DecodeMessage(bytes).Success? <==>
      exists m :: Faithful(m) && Encode(m).Success? && Encode(m).value <= bytes
        && (m.Bitfield? ==> Encode(m).value == bytes)
  {
    hide DecodeMessage, Encode;
    if DecodeMessage(bytes).Success? {
      EncodesDecoding(bytes);
      DecodedIsFaithful(bytes);
    }
    forall m | Faithful(m) && Encode(m).Success? && Encode(m).value <= bytes
        && (m.Bitfield? ==> Encode(m).value == bytes)
      ensures DecodeMessage(bytes).Success?
    {
      var rest := bytes[|Encode(m).value|..];
      assert bytes == Encode(m).value + rest;
      DecodesEncoding(m, rest);
    }
  }

  // ---------------------------------------------------------------- the layout, byte by byte

  /** Version, kind, length of the id, and the id. */
  ghost predicate Headed(frame: Bytes, kind: bv8, id: Bytes) {
    && |frame| >= 3 + |id|
    && frame[0] == 1 && frame[1] == kind && FromByte(frame[2]) == |id| && frame[3..3 + |id|] == id
  }

  /** Four bytes with the number `v`, the highest first. */
  ghost predicate Holds(frame: Bytes, at: nat, v: int) {
    && at + 4 <= |frame|
    && v == ((FromByte(frame[at]) * 256 + FromByte(frame[at + 1])) * 256 + FromByte(frame[at + 2])) * 256
            + FromByte(frame[at + 3])
  }

  ghost predicate IsBitfield(frame: Bytes, id: Bytes, totalChunks: int, bits: Bytes) {
    var at := 3 + |id|;
    && Headed(frame, 1, id) && |frame| == at + 4 + |bits|
    && Holds(frame, at, totalChunks % 0x1_0000_0000) && frame[at + 4..] == bits
  }

  ghost predicate IsHave(frame: Bytes, id: Bytes, chunk: int) {
    Headed(frame, 2, id) && |frame| == 3 + |id| + 4 && Holds(frame, 3 + |id|, chunk % 0x1_0000_0000)
  }

  ghost predicate IsRequest(frame: Bytes, id: Bytes, chunk: int) {
    Headed(frame, 3, id) && |frame| == 3 + |id| + 4 && Holds(frame, 3 + |id|, chunk % 0x1_0000_0000)
  }

  ghost predicate IsPiece(frame: Bytes, id: Bytes, chunk: int, offset: int, total: int, data: Bytes) {
    var at := 3 + |id|;
    && Headed(frame, 4, id) && |frame| == at + 16 + |data|
    && Holds(frame, at, chunk % 0x1_0000_0000) && Holds(frame, at + 4, offset % 0x1_0000_0000)
    && Holds(frame, at + 8, total % 0x1_0000_0000) && Holds(frame, at + 12, |data| % 0x1_0000_0000)
    && frame[at + 16..] == data
  }

  ghost predicate IsChoke(frame: Bytes, id: Bytes) {
    Headed(frame, 5, id) && |frame| == 3 + |id|
  }

  ghost predicate IsUnchoke(frame: Bytes, id: Bytes) {
    Headed(frame, 6, id) && |frame| == 3 + |id|
  }

  lemma HeaderLaid(kind: bv8, id: Bytes, rest: Bytes)
    requires |id| <= MAX_ID_LENGTH
    ensures Headed(Header(kind, id) + rest, kind, id)
  {
    hide ToByte, FromByte;
    ByteRoundTrip(|id|);
    assert (Header(kind, id) + rest)[3..3 + |id|] == id;
  }

  lemma FieldLaid(frame: Bytes, at: nat, v: int)
    requires at + 4 <= |frame| && frame[at..at + 4] == U32(v)
    ensures Holds(frame, at, v % 0x1_0000_0000)
  {
    hide U32, FromByte;
    FieldReadBack(frame, at, v);
  }

  lemma FieldsPlaced(head: Bytes, a: Bytes, b: Bytes, c: Bytes, d: Bytes, data: Bytes)
    requires |a| == |b| == |c| == |d| == 4
    ensures var frame, at := head + (a + b + c + d + data), |head|;
      && frame[at..at + 4] == a && frame[at + 4..at + 8] == b && frame[at + 8..at + 12] == c
      && frame[at + 12..at + 16] == d && frame[at + 16..] == data
  {
  }

  /** The frame of each kind of message. */
  lemma FrameLaid(m: WireMessage)
    requires Encode(m).Success?
    ensures var frame := Encode(m).value;
      match m
      case Bitfield(id, totalChunks, bits) => IsBitfield(frame, id, totalChunks, bits)
      case Have(id, chunk) => IsHave(frame, id, chunk)
      case Request(id, chunk) => IsRequest(frame, id, chunk)
      case Piece(id, chunk, offset, total, data) => IsPiece(frame, id, chunk, offset, total, data)
      case Choke(id) => IsChoke(frame, id)
      case Unchoke(id) => IsUnchoke(frame, id)
  {
    hide U32, FromByte, Headed, Holds, Header;
    var head, frame := Header(Opcode(m), m.id), Encode(m).value;
    var at := 3 + |m.id|;
    HeaderLaid(Opcode(m), m.id, Payload(m));
    match m
    case Bitfield(_, totalChunks, bits) =>
      assert frame[at..at + 4] == U32(totalChunks) && frame[at + 4..] == bits;
      FieldLaid(frame, at, totalChunks);
    case Have(_, chunk) =>
      assert frame[at..at + 4] == U32(chunk);
      FieldLaid(frame, at, chunk);
    case Request(_, chunk) =>
      assert frame[at..at + 4] == U32(chunk);
      FieldLaid(frame, at, chunk);
    case Piece(_, chunk, offset, total, data) =>
      FieldsPlaced(head, U32(chunk), U32(offset), U32(total), U32(|data|), data);
      FieldLaid(frame, at, chunk);
      FieldLaid(frame, at + 4, offset);
      FieldLaid(frame, at + 8, total);
      FieldLaid(frame, at + 12, |data|);
    case Choke(_) =>
    case Unchoke(_) =>
  }

  /** What a byte string that begins like a frame is read as, by its kind and the number behind its header. */
  lemma LayoutRead(bytes: Bytes, kind: bv8, id: Bytes, v: int)
    requires Headed(bytes, kind, id) && (Holds(bytes, 3 + |id|, v) || |bytes| < 3 + |id| + 4)
    ensures var at, r := 3 + |id|, DecodeMessage(bytes);
      if kind == 5 then r == Success(Choke(id))
      else if kind == 6 then r == Success(Unchoke(id))
      else if kind < 1 || kind > 6 then r == Failure(UnknownOpcode)
      else if |bytes| < at + 4 then r == Failure(Truncated)
      else if kind == 2 then r == Success(Have(id, v))
      else if kind == 3 then r == Success(Request(id, v))
      else if kind == 1 then
        r == if 8 * (|bytes| - at - 4) - 8 < v <= 8 * (|bytes| - at - 4)
             then Success(Bitfield(id, v, bytes[at + 4..])) else Failure(BitfieldLengthMismatch)
      else |bytes| < at + 16 ==> r == Failure(Truncated)
  {
    hide FromByte;
    var at := 3 + |id|;
    if kind == 1 && at + 4 <= |bytes| {
      RequiredExactly(GetU32(bytes, at), |bytes| - at - 4);
    }
  }

  /** And a PIECE, by its four numbers. */
  lemma PieceRead(bytes: Bytes, id: Bytes, chunk: int, offset: int, total: int, length: nat)
    requires Headed(bytes, 4, id) && Holds(bytes, 3 + |id|, chunk) && Holds(bytes, 3 + |id| + 4, offset)
    requires Holds(bytes, 3 + |id| + 8, total) && Holds(bytes, 3 + |id| + 12, length)
    ensures var from := 3 + |id| + 16;
      DecodeMessage(bytes) == if from + length <= |bytes|
        then Success(Piece(id, chunk, offset, total, bytes[from..from + length])) else Failure(Truncated)
  {
    hide FromByte;
  }

  /** What no frame begins like. */
  lemma HeadRefused(bytes: Bytes)
    ensures DecodeMessage(bytes) == Failure(PacketTooShort) <==> |bytes| < 3
    ensures DecodeMessage(bytes) == Failure(UnsupportedVersion) <==> |bytes| >= 3 && bytes[0] != 1
    ensures DecodeMessage(bytes) == Failure(IdBeyondPacket) <==>
      |bytes| >= 3 && bytes[0] == 1 && |bytes| < 3 + FromByte(bytes[2])
    ensures |bytes| >= 3 && bytes[0] == 1 && |bytes| >= 3 + FromByte(bytes[2]) ==>
      Headed(bytes, bytes[1], bytes[3..3 + FromByte(bytes[2])])
  {
    hide FromByte, GetU32;
  }

  lemma SmallBytes()
    ensures ToByte(0) == 0 && ToByte(1) == 1 && ToByte(2) == 2
  {
  }

  /** Two frames, byte by byte. */
  lemma FramesExample()
    ensures Encode(Have([], 0)) == Success([1, 2, 0, 0, 0, 0, 0])
    ensures Encode(Request([7], 258)) == Success([1, 3, 1, 7, 0, 0, 1, 2])
  {
    hide ToByte, U32;
    SmallBytes();
    FieldOf(0, 0, 0, 0);
    FieldOf(0, 0, 1, 2);
    assert FourBytes(0, 0, 0, 0) == 0 && FourBytes(0, 0, 1, 2) == 258;
    var h, r := Have([], 0), Request([7], 258);
    assert U32(0) == [0, 0, 0, 0] && U32(258) == [0, 0, 1, 2];
    assert Header(Opcode(h), h.id) == [1, 2, 0] && Header(Opcode(r), r.id) == [1, 3, 1, 7];
    assert Header(Opcode(h), h.id) + Payload(h) == [1, 2, 0, 0, 0, 0, 0];
    assert Header(Opcode(r), r.id) + Payload(r) == [1, 3, 1, 7, 0, 0, 1, 2];
  }

  // ---------------------------------------------------------------- the encoders

  method SetUint32(buffer: array<bv8>, at: nat, v: int)
    requires at + 4 <= buffer.Length
    modifies buffer
    ensures buffer[..at + 4] == old(buffer[..at]) + U32(v)
    ensures buffer[at + 4..] == old(buffer[at + 4..])
  {
    var field := U32(v);
    buffer[at], buffer[at + 1], buffer[at + 2], buffer[at + 3] := field[0], field[1], field[2], field[3];
  }

  /** `Uint8Array.prototype.set` */
  method SetBytes(buffer: array<bv8>, at: nat, bytes: Bytes)
    requires at + |bytes| <= buffer.Length
    modifies buffer
    ensures buffer[..at + |bytes|] == old(buffer[..at]) + bytes
    ensures buffer[at + |bytes|..] == old(buffer[at + |bytes|..])
  {
    for i := 0 to |bytes|
      invariant buffer[..at + i] == old(buffer[..at]) + bytes[..i]
      invariant buffer[at + i..] == old(buffer[at + i..])
    {
      buffer[at + i] := bytes[i];
    }
  }

  /** Null where the id is too long. */
  method EncodeCommonHeader(opcode: bv8, id: Bytes, extra: nat) returns (buffer: array?<bv8>, headerSize: nat)
    ensures buffer == null <==> |id| > MAX_ID_LENGTH
    ensures buffer != null ==> fresh(buffer) && headerSize == 3 + |id| && buffer.Length == headerSize + extra
    ensures buffer != null ==> buffer[..headerSize] == Header(opcode, id)
  {
    headerSize := 3 + |id|;
    if |id| > MAX_ID_LENGTH {
      return null, headerSize;
    }
    buffer := new bv8[headerSize + extra](_ => 0);
    buffer[0] := PROTOCOL_VERSION;
    buffer[1] := opcode;
    buffer[2] := ToByte(|id|);
    SetBytes(buffer, 3, id);
  }

  lemma CountJoined(header: Bytes, count: Bytes, bits: Bytes)
    ensures header + count + bits == header + (count + bits)
  {
  }

  method EncodeBitfield(id: Bytes, totalChunks: int, bits: Bytes) returns (r: Result<Bytes, WireError>)
    ensures r == Encode(Bitfield(id, totalChunks, bits))
    ensures r.Success? ==> IsBitfield(r.value, id, totalChunks, bits)
    ensures r.Failure? <==> |id| > 255
    ensures r.Failure? ==> r == Failure(IdTooLong)
  {
    hide U32, ToByte, IsBitfield;
    var buffer, headerSize := EncodeCommonHeader(1, id, 4 + |bits|);
    if buffer == null {
      return Failure(IdTooLong);
    }
    SetUint32(buffer, headerSize, totalChunks);
    SetBytes(buffer, headerSize + 4, bits);
    assert buffer[..] == buffer[..headerSize + 4 + |bits|];
    CountJoined(Header(1, id), U32(totalChunks), bits);
    FrameLaid(Bitfield(id, totalChunks, bits));
    return Success(buffer[..]);
  }

  method EncodeHave(id: Bytes, chunk: int) returns (r: Result<Bytes, WireError>)
    ensures r == Encode(Have(id, chunk))
    ensures r.Success? ==> IsHave(r.value, id, chunk)
    ensures r == Failure(NegativeField) <==> chunk < 0
    ensures r == Failure(IdTooLong) <==> !(chunk < 0) && |id| > 255
    ensures r.Failure? <==> chunk < 0 || |id| > 255
  {
    hide U32, ToByte, IsHave;
    if chunk < 0 {
      return Failure(NegativeField);
    }
    var buffer, headerSize := EncodeCommonHeader(2, id, 4);
    if buffer == null {
      return Failure(IdTooLong);
    }
    SetUint32(buffer, headerSize, chunk);
    assert buffer[..] == buffer[..headerSize + 4];
    assert buffer[..] == Header(Opcode(Have(id, chunk)), id) + Payload(Have(id, chunk));
    FrameLaid(Have(id, chunk));
    return Success(buffer[..]);
  }

  method EncodeRequest(id: Bytes, chunk: int) returns (r: Result<Bytes, WireError>)
    ensures r == Encode(Request(id, chunk))
    ensures r.Success? ==> IsRequest(r.value, id, chunk)
    ensures r == Failure(NegativeField) <==> chunk < 0
    ensures r == Failure(IdTooLong) <==> !(chunk < 0) && |id| > 255
    ensures r.Failure? <==> chunk < 0 || |id| > 255
  {
    hide U32, ToByte, IsRequest;
    if chunk < 0 {
      return Failure(NegativeField);
    }
    var buffer, headerSize := EncodeCommonHeader(3, id, 4);
    if buffer == null {
      return Failure(IdTooLong);
    }
    SetUint32(buffer, headerSize, chunk);
    assert buffer[..] == buffer[..headerSize + 4];
    assert buffer[..] == Header(Opcode(Request(id, chunk)), id) + Payload(Request(id, chunk));
    FrameLaid(Request(id, chunk));
    return Success(buffer[..]);
  }

  lemma FieldsJoined(header: Bytes, a: Bytes, b: Bytes, c: Bytes, d: Bytes, data: Bytes)
    ensures header + a + b + c + d + data == header + (a + b + c + d + data)
  {
  }

  method EncodePiece(id: Bytes, chunk: int, offset: int, total: int, data: Bytes) returns (r: Result<Bytes, WireError>)
    ensures r == Encode(Piece(id, chunk, offset, total, data))
    ensures r.Success? ==> IsPiece(r.value, id, chunk, offset, total, data)
    ensures r == Failure(NegativeField) <==> chunk < 0 || offset < 0 || total < 0
    ensures r == Failure(IdTooLong) <==> !(chunk < 0 || offset < 0 || total < 0) && |id| > 255
    ensures r.Failure? <==> chunk < 0 || offset < 0 || total < 0 || |id| > 255
  {
    hide U32, ToByte, IsPiece;
    if chunk < 0 || offset < 0 || total < 0 {
      return Failure(NegativeField);
    }
    var buffer, headerSize := EncodeCommonHeader(4, id, 16 + |data|);
    if buffer == null {
      return Failure(IdTooLong);
    }
    ghost var header := Header(4, id);
    SetUint32(buffer, headerSize, chunk);
    SetUint32(buffer, headerSize + 4, offset);
    SetUint32(buffer, headerSize + 8, total);
    SetUint32(buffer, headerSize + 12, |data|);
    SetBytes(buffer, headerSize + 16, data);
    assert buffer[..] == buffer[..headerSize + 16 + |data|];
    FieldsJoined(header, U32(chunk), U32(offset), U32(total), U32(|data|), data);
    FrameLaid(Piece(id, chunk, offset, total, data));
    return Success(buffer[..]);
  }

  method EncodeChoke(id: Bytes) returns (r: Result<Bytes, WireError>)
    ensures r == Encode(Choke(id))
    ensures r.Success? ==> IsChoke(r.value, id)
    ensures r.Failure? <==> |id| > 255
    ensures r.Failure? ==> r == Failure(IdTooLong)
  {
    hide IsChoke;
    var buffer, _ := EncodeCommonHeader(5, id, 0);
    if buffer == null {
      return Failure(IdTooLong);
    }
    assert buffer[..] == Header(Opcode(Choke(id)), id) + Payload(Choke(id));
    FrameLaid(Choke(id));
    return Success(buffer[..]);
  }

  method EncodeUnchoke(id: Bytes) returns (r: Result<Bytes, WireError>)
    ensures r == Encode(Unchoke(id))
    ensures r.Success? ==> IsUnchoke(r.value, id)
    ensures r.Failure? <==> |id| > 255
    ensures r.Failure? ==> r == Failure(IdTooLong)
  {
    hide IsUnchoke;
    var buffer, _ := EncodeCommonHeader(6, id, 0);
    if buffer == null {
      return Failure(IdTooLong);
    }
    assert buffer[..] == Header(Opcode(Unchoke(id)), id) + Payload(Unchoke(id));
    FrameLaid(Unchoke(id));
    return Success(buffer[..]);
  }
}
