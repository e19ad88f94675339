/** Length-prefixed frames: four bytes of length, four of message id, both least significant byte first,
    then the data. */
module Frame {
  import opened Common

  type Uint32 = x: int | 0 <= x < 0x1_0000_0000

  const HEAD_LEN := 8
  const DEFAULT_MAX_PACKER_SIZE: Uint32 := 4096

  datatype Message = Message(id: Uint32, dataLen: Uint32, data: Bytes)

  /** io.EOF, io.ErrUnexpectedEOF and the size check. */
  datatype Error = EndOfInput | CutShort | TooLarge

  datatype Result<T> = Ok(value: T, rest: Bytes) | Err(error: Error)

  /** The length field is the conversion to uint32: it wraps. */
  function NewMsgPackage(id: Uint32, data: Bytes): Message {
    Message(id, |data| % 0x1_0000_0000, data)
  }

  // ---------------------------------------------------------------- integers

  /** The low n bytes of x, least significant first. */
  function LittleEndian(x: nat, n: nat): (b: Bytes)
    ensures |b| == n
  {
    if n == 0 then [] else [(x % 256) as byte] + LittleEndian(x / 256, n - 1)
  }

  function Value(b: Bytes): nat {
    if b == [] then 0 else b[0] as nat + 256 * Value(b[1..])
  }

  function Power256(n: nat): nat {
    if n == 0 then 1 else 256 * Power256(n - 1)
  }

  lemma {:induction false} LittleEndianRoundTrip(x: nat, n: nat)
    requires x < Power256(n)
    ensures Value(LittleEndian(x, n)) == x
  {
    if n > 0 {
      LittleEndianRoundTrip(x / 256, n - 1);
    }
  }

  /** The four bytes of x, the least significant first. */
  predicate SpellsOut(b: Bytes, x: Uint32) {
    && |b| == 4
    && b[0] as nat == x % 0x100
    && b[1] as nat == x / 0x100 % 0x100
    && b[2] as nat == x / 0x1_0000 % 0x100
    && b[3] as nat == x / 0x100_0000
  }

  lemma FourBytesInOrder(x: Uint32)
    ensures SpellsOut(LittleEndian(x, 4), x)
  {
    var b, c := LittleEndian(x, 4), LittleEndian(x / 256, 3);
    var d, e := LittleEndian(x / 256 / 256, 2), LittleEndian(x / 256 / 256 / 256, 1);
    assert b == [(x % 256) as byte] + c;
    assert c == [(x / 256 % 256) as byte] + d;
    assert d == [(x / 256 / 256 % 256) as byte] + e;
    assert e == [(x / 256 / 256 / 256 % 256) as byte] + [];
  }

  lemma {:induction false} ValueInRange(b: Bytes)
    ensures Value(b) < Power256(|b|)
  {
    if b != [] {
      ValueInRange(b[1..]);
    }
  }

  lemma FourBytes()
    ensures Power256(4) == 0x1_0000_0000
  {
    assert Power256(4) == 256 * Power256(3) && Power256(2) == 256 * Power256(1);
  }

  // ---------------------------------------------------------------- printing and parsing

  function Packed(m: Message): Bytes {
    LittleEndian(m.dataLen, 4) + LittleEndian(m.id, 4) + m.data
  }

  /** io.ReadFull of n bytes. */
  function Take(n: nat, input: Bytes): Result<Bytes> {
    if n <= |input| then Ok(input[..n], input[n..])
    else if input == [] then Err(EndOfInput)
    else Err(CutShort)
  }

  function ReadUint32(input: Bytes): Result<Uint32> {
    match Take(4, input)
    case Err(e) => Err(e)
    case Ok(b, rest) => ValueInRange(b); FourBytes(); Ok(Value(b), rest)
  }

  function Unpacked(maxSize: Uint32, input: Bytes): Result<Message> {
    match ReadUint32(input)
    case Err(e) => Err(e)
    case Ok(dataLen, afterLen) =>
      match ReadUint32(afterLen)
      case Err(e) => Err(e)
      case Ok(id, afterId) =>
        if dataLen > maxSize then Err(TooLarge)
        else
          match Take(dataLen, afterId)
          case Err(e) => Err(e)
          case Ok(data, rest) => Ok(Message(id, dataLen, data), rest)
  }

  // ---------------------------------------------------------------- one frame

  lemma {:induction false} ValueRoundTrip(b: Bytes)
    ensures LittleEndian(Value(b), |b|) == b
  {
    if b != [] {
      ValueRoundTrip(b[1..]);
      assert Value(b) % 256 == b[0] as nat && Value(b) / 256 == Value(b[1..]);
      assert b == [b[0]] + b[1..];
    }
  }

  lemma ReadWritten(x: Uint32, rest: Bytes)
    ensures ReadUint32(LittleEndian(x, 4) + rest) == Ok(x, rest)
  {
    FourBytes();
    LittleEndianRoundTrip(x, 4);
    var input := LittleEndian(x, 4) + rest;
    assert input[..4] == LittleEndian(x, 4) && input[4..] == rest;
  }

  lemma WrittenWasRead(input: Bytes)
    requires ReadUint32(input).Ok?
    ensures input == LittleEndian(ReadUint32(input).value, 4) + ReadUint32(input).rest
  {
    ValueRoundTrip(input[..4]);
    assert input == input[..4] + input[4..];
  }

  /** What a receiver makes of the bytes behind a header with m's fields, whether or not these fit m's data. */
  function Received(maxSize: Uint32, m: Message, bytes: Bytes): Result<Message> {
    if m.dataLen > maxSize then Err(TooLarge)
    else
      match Take(m.dataLen, bytes)
      case Err(e) => Err(e)
      case Ok(data, after) => Ok(m.(data := data), after)
  }

  lemma UnpackedAfterHead(maxSize: Uint32, m: Message, rest: Bytes)
    ensures Unpacked(maxSize, LittleEndian(m.dataLen, 4) + (LittleEndian(m.id, 4) + rest)) == Received(maxSize, m, rest)
  {
    ReadWritten(m.dataLen, LittleEndian(m.id, 4) + rest);
    ReadWritten(m.id, rest);
  }

  /** A printed message comes back, with what follows left over, if and only if its length field is the
      length of its data and within the receiver's limit. */
  lemma PackedComesBackIff(maxSize: Uint32, m: Message, rest: Bytes)
    ensures Unpacked(maxSize, Packed(m) + rest) == Received(maxSize, m, m.data + rest)
    ensures Unpacked(maxSize, Packed(m) + rest) == Ok(m, rest) <==> |m.data| == m.dataLen <= maxSize
  {
    hide LittleEndian, ReadUint32;
    assert Packed(m) + rest == LittleEndian(m.dataLen, 4) + (LittleEndian(m.id, 4) + (m.data + rest));
    UnpackedAfterHead(maxSize, m, m.data + rest);
    if |m.data| == m.dataLen <= maxSize {
      assert (m.data + rest)[..m.dataLen] == m.data && (m.data + rest)[m.dataLen..] == rest;
    }
  }

  /** A message built by NewMsgPackage comes back unchanged, with what follows left over, if and only if
      its data is no longer than the receiver's limit. */
  lemma RoundTripIffFits(maxSize: Uint32, id: Uint32, data: Bytes, rest: Bytes)
    ensures var m := NewMsgPackage(id, data);
            Unpacked(maxSize, Packed(m) + rest) == Ok(m, rest) <==> |data| <= maxSize
  {
    hide Packed, Unpacked;
    PackedComesBackIff(maxSize, NewMsgPackage(id, data), rest);
  }

  /** What becomes of a message with more data than the receiver's limit: it is refused, unless its length
      wraps to one within the limit; then its beginning comes back, and the remainder is taken for what
      follows. */
  lemma OversizedIsRefusedOrCut(maxSize: Uint32, id: Uint32, data: Bytes, rest: Bytes)
    requires |data| > maxSize
    ensures var n := |data| % 0x1_0000_0000;
            Unpacked(maxSize, Packed(NewMsgPackage(id, data)) + rest) ==
            if n > maxSize then Err(TooLarge) else Ok(Message(id, n, data[..n]), data[n..] + rest)
  {
    hide Packed, Unpacked;
    var n := |data| % 0x1_0000_0000;
    PackedComesBackIff(maxSize, NewMsgPackage(id, data), rest);
    assert n <= |data|;
    assert (data + rest)[..n] == data[..n] && (data + rest)[n..] == data[n..] + rest;
  }

  /** Unpack accepts nothing but printed frames: what it consumed is the print of what it returned. */
  lemma UnpackedWasPacked(maxSize: Uint32, input: Bytes)
    requires Unpacked(maxSize, input).Ok?
    ensures var r := Unpacked(maxSize, input);
            && r.value == NewMsgPackage(r.value.id, r.value.data) && |r.value.data| <= maxSize
            && input == Packed(r.value) + r.rest
  {
    hide LittleEndian, Value, ReadUint32;
    var r := Unpacked(maxSize, input);
    var afterLen := ReadUint32(input).rest;
    var afterId := ReadUint32(afterLen).rest;
    WrittenWasRead(input);
    WrittenWasRead(afterLen);
    var len, num := LittleEndian(r.value.dataLen, 4), LittleEndian(r.value.id, 4);
    assert afterId == r.value.data + r.rest;
    assert input == len + (num + (r.value.data + r.rest));
    assert len + (num + (r.value.data + r.rest)) == len + num + r.value.data + r.rest;
  }

  /** Every strict prefix of a frame is rejected; the error tells whether the cut was between fields. */
  lemma StrictPrefixRejected(maxSize: Uint32, id: Uint32, data: Bytes, k: nat)
    requires |data| <= maxSize && k < HEAD_LEN + |data|
    ensures var m := NewMsgPackage(id, data);
            && |Packed(m)| == HEAD_LEN + |data|
            && Unpacked(maxSize, Packed(m)[..k]) == Err(if k in {0, 4, 8} then EndOfInput else CutShort)
  {
    var m := NewMsgPackage(id, data);
    var len, num := LittleEndian(m.dataLen, 4), LittleEndian(m.id, 4);
    if k < 4 {
    } else if k < 8 {
      assert Packed(m)[..k] == len + num[..k - 4];
      ReadWritten(m.dataLen, num[..k - 4]);
    } else {
      assert Packed(m)[..k] == len + (num + data[..k - 8]);
      UnpackedAfterHead(maxSize, m, data[..k - 8]);
    }
  }

  // ---------------------------------------------------------------- many frames

  function PackedAll(ms: seq<Message>): Bytes {
    if ms == [] then [] else Packed(ms[0]) + PackedAll(ms[1..])
  }

  ghost predicate Sendable(maxSize: Uint32, m: Message) {
    m == NewMsgPackage(m.id, m.data) && |m.data| <= maxSize
  }

  /** Frames read one after the other until the input is used up; None if one is rejected. */
  function UnpackedAll(maxSize: Uint32, input: Bytes): Option<seq<Message>>
    decreases |input|
  {
    if input == [] then Some([])
    else
      match Unpacked(maxSize, input)
      case Err(_) => None
      case Ok(m, rest) =>
        UnpackedWasPacked(maxSize, input);
        match UnpackedAll(maxSize, rest)
        case None => None
        case Some(ms) => Some([m] + ms)
  }

  /** A byte string is the encoding of a list of sendable messages if and only if reading it frame by
      frame yields that list; so every byte string encodes at most one. */
  lemma {:induction false} StreamDecodesIffEncoded(maxSize: Uint32, input: Bytes, ms: seq<Message>)
    ensures UnpackedAll(maxSize, input) == Some(ms) <==>
            input == PackedAll(ms) && forall k :: 0 <= k < |ms| ==> Sendable(maxSize, ms[k])
    decreases |ms|
  {
    if input == PackedAll(ms) && forall k :: 0 <= k < |ms| ==> Sendable(maxSize, ms[k]) {
      EncodedDecodes(maxSize, ms);
    }
    if UnpackedAll(maxSize, input) == Some(ms) && ms != [] {
      var r := Unpacked(maxSize, input);
      UnpackedWasPacked(maxSize, input);
      StreamDecodesIffEncoded(maxSize, r.rest, ms[1..]);
      assert ms == [ms[0]] + ms[1..];
    }
  }

  lemma {:induction false} EncodedDecodes(maxSize: Uint32, ms: seq<Message>)
    requires forall k :: 0 <= k < |ms| ==> Sendable(maxSize, ms[k])
    ensures UnpackedAll(maxSize, PackedAll(ms)) == Some(ms)
  {
    hide Unpacked, NewMsgPackage, LittleEndian;
    if ms != [] {
      EncodedDecodes(maxSize, ms[1..]);
      RoundTripIffFits(maxSize, ms[0].id, ms[0].data, PackedAll(ms[1..]));
      assert ms == [ms[0]] + ms[1..];
    }
  }

  /** Distinct lists of sendable messages have distinct concatenated encodings. */
  lemma EncodingInjective(maxSize: Uint32, a: seq<Message>, b: seq<Message>)
    requires forall k :: 0 <= k < |a| ==> Sendable(maxSize, a[k])
    requires forall k :: 0 <= k < |b| ==> Sendable(maxSize, b[k])
    requires PackedAll(a) == PackedAll(b)
    ensures a == b
  {
    EncodedDecodes(maxSize, a);
    EncodedDecodes(maxSize, b);
  }

  // ---------------------------------------------------------------- the codec as it runs

  /** A receiver with a large enough limit gets back exactly this message, with whatever follows left
      over, and nothing before the last byte is in, provided the length field is right. If it is not,
      the receiver takes as much as it says. */
  method Pack(m: Message) returns (buffer: Bytes)
    ensures |buffer| == HEAD_LEN + |m.data|
    ensures SpellsOut(buffer[..4], m.dataLen) && SpellsOut(buffer[4..8], m.id) && buffer[8..] == m.data
    ensures forall maxSize: Uint32, rest: Bytes ::
              Unpacked(maxSize, buffer + rest) == Received(maxSize, m, m.data + rest)
    ensures forall maxSize: Uint32, rest: Bytes ::
              Unpacked(maxSize, buffer + rest) == Ok(m, rest) <==> |m.data| == m.dataLen <= maxSize
    ensures forall maxSize: Uint32, k: nat :: k < |buffer| && |m.data| == m.dataLen <= maxSize ==>
              Unpacked(maxSize, buffer[..k]).Err?
  {
    buffer := [];
    buffer := buffer + LittleEndian(m.dataLen, 4);
    buffer := buffer + LittleEndian(m.id, 4);
    buffer := buffer + m.data;
    assert buffer == Packed(m);
    FourBytesInOrder(m.dataLen);
    FourBytesInOrder(m.id);
    assert buffer[..4] == LittleEndian(m.dataLen, 4) && buffer[4..8] == LittleEndian(m.id, 4);
    hide LittleEndian, Unpacked, Packed, Received;
    forall maxSize: Uint32, rest: Bytes
      ensures Unpacked(maxSize, buffer + rest) == Received(maxSize, m, m.data + rest)
      ensures Unpacked(maxSize, buffer + rest) == Ok(m, rest) <==> |m.data| == m.dataLen <= maxSize
    {
      PackedComesBackIff(maxSize, m, rest);
    }
    forall maxSize: Uint32, k: nat | k < |buffer| && |m.data| == m.dataLen <= maxSize
      ensures Unpacked(maxSize, buffer[..k]).Err?
    {
      assert m == NewMsgPackage(m.id, m.data);
      StrictPrefixRejected(maxSize, m.id, m.data, k);
    }
  }

  /** A reader over one buffer in memory. */
  class Reader {
    var remaining: Bytes

    constructor (input: Bytes)
      ensures remaining == input
    {
      remaining := input;
    }

    method ReadFull(n: nat) returns (r: Result<Bytes>)
      modifies this
      ensures r == Take(n, old(remaining))
      ensures remaining == if r.Ok? then r.rest else []
    {
      if n <= |remaining| {
        r := Ok(remaining[..n], remaining[n..]);
        remaining := remaining[n..];
      } else {
        r := Err(if remaining == [] then EndOfInput else CutShort);
        remaining := [];
      }
    }
  }

  method Unpack(reader: Reader, maxSize: Uint32) returns (r: Result<Message>)
    modifies reader
    ensures r == Unpacked(maxSize, old(reader.remaining))
    ensures r.Ok? ==> reader.remaining == r.rest
    ensures r == Err(TooLarge) ==> |reader.remaining| == |old(reader.remaining)| - HEAD_LEN
  {
    FourBytes();
    var msg := Message(0, 0, []);
    var field := reader.ReadFull(4);
    if field.Err? {
      return Err(field.error);
    }
    ValueInRange(field.value);
    msg := msg.(dataLen := Value(field.value));
    field := reader.ReadFull(4);
    if field.Err? {
      return Err(field.error);
    }
    ValueInRange(field.value);
    msg := msg.(id := Value(field.value));
    if msg.dataLen < 0 || msg.dataLen > maxSize {
      return Err(TooLarge);
    }
    field := reader.ReadFull(msg.dataLen);
    if field.Err? {
      return Err(field.error);
    }
    msg := msg.(data := field.value);
    r := Ok(msg, reader.remaining);
  }
}
