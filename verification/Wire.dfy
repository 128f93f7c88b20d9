/** The control-plane message codec and its length-prefixed frames. */
module Wire {
  import opened Words
  import opened Endian

  const MAX_FRAME_SIZE := 16 * 1024 * 1024
  const PROTOCOL_VERSION := 1
  const FRAME_LEN_WIDTH := 4
  const MAX_FIELDS := 64
  const MAX_BODY := 1024 * 1024

  // Message types.
  const NULL := 0
  const HELLO := 1
  const SUBMIT_REQUEST := 2
  const PROPOSAL_DISPATCH := 3
  const PROPOSAL_RESULT := 4
  const VERIFICATION_DISPATCH := 5
  const VERIFICATION_RESULT := 6
  const COMMIT := 7
  const REJECT := 8
  const CANCEL := 9
  const INFO := 10
  const SHUTDOWN := 11

  datatype WireError =
    | InvalidMessage | OversizedFrame | TruncatedFrame | UnknownProtocolVersion
    | UnknownMessageType | Malformed | ZeroLengthMessage

  datatype Message = Message(version: u32, kind: u32, u64s: seq<u64>, u32s: seq<u32>, body: seq<byte>)

  /** What the encoder accepts: it does not bound the message type from above. */
  predicate Encodable(m: Message) {
    && m.version == PROTOCOL_VERSION && m.kind != NULL
    && |m.u64s| <= MAX_FIELDS && |m.u32s| <= MAX_FIELDS && |m.body| <= MAX_BODY
  }

  /** The messages of the protocol: encodable, with one of the eleven declared types. */
  predicate Valid(m: Message) {
    Encodable(m) && m.kind <= SHUTDOWN
  }

  function Header(m: Message): (s: seq<byte>)
    ensures |s| == 20
  {
    Le(m.version, 4) + Le(m.kind, 4) + Le(|m.u64s|, 4) + Le(|m.u32s|, 4) + Le(|m.body|, 4)
  }

  /** The byte layout of a message. */
  function Payload(m: Message): seq<byte> {
    Header(m) + PutAll(m.u64s, 8) + PutAll(m.u32s, 4) + m.body
  }

  method Encode(m: Message) returns (r: Result<seq<byte>, WireError>)
    ensures r == EncodeSpec(m)
  {
    if m.version != PROTOCOL_VERSION || m.kind == NULL {
      return Err(InvalidMessage);
    }
    if |m.u64s| > MAX_FIELDS || |m.u32s| > MAX_FIELDS || |m.body| > MAX_BODY {
      return Err(OversizedFrame);
    }
    var out := Put([], m.version, 4);
    assert out == Le(m.version, 4);
    out := Put(out, m.kind, 4);
    out := Put(out, |m.u64s|, 4);
    out := Put(out, |m.u32s|, 4);
    out := Put(out, |m.body|, 4);
    assert out == Header(m);
    out := PutWords(out, m.u64s, 8);
    out := PutWords(out, m.u32s, 4);
    out := out + m.body;
    r := Ok(out);
  }

  function EncodeSpec(m: Message): Result<seq<byte>, WireError> {
    if m.version != PROTOCOL_VERSION || m.kind == NULL then Err(InvalidMessage)
    else if !Encodable(m) then Err(OversizedFrame)
    else Ok(Payload(m))
  }

  /** The 32-bit word at a header position. */
  function WordAt(p: seq<byte>, pos: nat): nat
    requires pos + 4 <= |p|
  {
    FromLe(p[pos..pos + 4])
  }

  function DecodeSpec(p: seq<byte>): Result<Message, WireError> {
    if |p| < 20 then Err(TruncatedFrame)
    else if WordAt(p, 0) != PROTOCOL_VERSION then Err(UnknownProtocolVersion)
    else if WordAt(p, 4) == NULL || WordAt(p, 4) > SHUTDOWN then Err(UnknownMessageType)
    else if WordAt(p, 8) > MAX_FIELDS || WordAt(p, 12) > MAX_FIELDS || WordAt(p, 16) > MAX_BODY then Err(OversizedFrame)
    else FieldsSpec(p, WordAt(p, 4), WordAt(p, 8), WordAt(p, 12), WordAt(p, 16))
  }

  /** The part of a payload after its header: the fields and the body must fill it exactly. */
  function FieldsSpec(p: seq<byte>, kind: u32, n64: nat, n32: nat, blen: nat): Result<Message, WireError>
    requires |p| >= 20
  {
    var pos32 := 20 + 8 * n64;
    var end := pos32 + 4 * n32;
    if |p| < end + blen then Err(TruncatedFrame)
    else if |p| > end + blen then Err(Malformed)
    else Ok(Message(PROTOCOL_VERSION, kind, Words64(p, n64), Words32(p, pos32, n32), p[end..]))
  }

  function Words64(p: seq<byte>, n: nat): (vs: seq<u64>)
    requires 20 + 8 * n <= |p|
  {
    RangeValues();
    GetAllBelow(p[20..], 8, n);
    GetAll(p[20..], 8, n)
  }

  function Words32(p: seq<byte>, pos: nat, n: nat): (vs: seq<u32>)
    requires pos + 4 * n <= |p|
  {
    RangeValues();
    GetAllBelow(p[pos..], 4, n);
    GetAll(p[pos..], 4, n)
  }

  method Decode(p: seq<byte>) returns (r: Result<Message, WireError>)
    ensures r == DecodeSpec(p)
  {
    if |p| < 20 {
      return Err(TruncatedFrame);
    }
    RangeValues();
    var version := Get(p, 0, 4);
    if version != PROTOCOL_VERSION {
      return Err(UnknownProtocolVersion);
    }
    var kind := Get(p, 4, 4);
    if kind == NULL || kind > SHUTDOWN {
      return Err(UnknownMessageType);
    }
    var n64 := Get(p, 8, 4);
    var n32 := Get(p, 12, 4);
    var blen := Get(p, 16, 4);
    if n64 > MAX_FIELDS || n32 > MAX_FIELDS || blen > MAX_BODY {
      return Err(OversizedFrame);
    }
    r := DecodeFields(p, kind, n64, n32, blen);
  }

  method DecodeFields(p: seq<byte>, kind: u32, n64: nat, n32: nat, blen: nat) returns (r: Result<Message, WireError>)
    requires |p| >= 20
    ensures r == FieldsSpec(p, kind, n64, n32, blen)
  {
    var pos := 20;
    var ok, u64s := GetWords(p, pos, 8, n64);
    if !ok {
      return Err(TruncatedFrame);
    }
    pos := pos + 8 * n64;
    var u32s;
    ok, u32s := GetWords(p, pos, 4, n32);
    if !ok {
      return Err(TruncatedFrame);
    }
    pos := pos + 4 * n32;
    if blen > |p| - pos {
      return Err(TruncatedFrame);
    }
    var body := p[pos..pos + blen];
    pos := pos + blen;
    if pos != |p| {
      return Err(Malformed);
    }
    assert body == p[20 + 8 * n64 + 4 * n32..];
    r := Ok(Message(PROTOCOL_VERSION, kind, Words64(p, n64), Words32(p, 20 + 8 * n64, n32), body));
  }

  // ---------------------------------------------------------------------------
  // The codec is a bijection
  // ---------------------------------------------------------------------------

  /**
   * A payload decodes to m exactly when m is a valid message and the payload is its
   * encoding: valid messages and accepted payloads are in one-to-one correspondence.
   */
  lemma DecodesExactlyTheEncodings(p: seq<byte>, m: Message)
    ensures DecodeSpec(p) == Ok(m) <==> Valid(m) && EncodeSpec(m) == Ok(p)
  {
    if Valid(m) && EncodeSpec(m) == Ok(p) {
      DecodeOfPayload(m);
    }
    if DecodeSpec(p) == Ok(m) {
      PayloadOfDecode(p, m);
    }
  }

  /** Five four-byte words in a row. */
  lemma HeaderSlices(m: Message, p: seq<byte>)
    requires Header(m) <= p
    ensures p[0..4] == Le(m.version, 4) && p[4..8] == Le(m.kind, 4) && p[8..12] == Le(|m.u64s|, 4)
    ensures p[12..16] == Le(|m.u32s|, 4) && p[16..20] == Le(|m.body|, 4)
  {
    var h := Header(m);
    assert p[..20] == h;
    assert p[0..4] == h[0..4] == Le(m.version, 4);
    assert p[4..8] == h[4..8] == Le(m.kind, 4);
    assert p[8..12] == h[8..12] == Le(|m.u64s|, 4);
    assert p[12..16] == h[12..16] == Le(|m.u32s|, 4);
    assert p[16..20] == h[16..20] == Le(|m.body|, 4);
  }

  lemma HeaderWords(m: Message, p: seq<byte>)
    requires Encodable(m) && Header(m) <= p
    ensures WordAt(p, 0) == m.version && WordAt(p, 4) == m.kind
    ensures WordAt(p, 8) == |m.u64s| && WordAt(p, 12) == |m.u32s| && WordAt(p, 16) == |m.body|
  {
    HeaderSlices(m, p);
    RangeValues();
    FromLeOfLe(m.version, 4);
    FromLeOfLe(m.kind, 4);
    FromLeOfLe(|m.u64s|, 4);
    FromLeOfLe(|m.u32s|, 4);
    FromLeOfLe(|m.body|, 4);
  }

  lemma Parts(a: seq<byte>, b: seq<byte>, c: seq<byte>, d: seq<byte>)
    ensures var p := a + b + c + d;
            && |p| == |a| + |b| + |c| + |d|
            && a <= p && p[|a|..] == b + (c + d) && p[|a| + |b|..] == c + d && p[|a| + |b| + |c|..] == d
  {
  }

  lemma PayloadParts(m: Message)
    ensures var p, pos := Payload(m), 20 + 8 * |m.u64s|;
            && |p| == pos + 4 * |m.u32s| + |m.body|
            && Header(m) <= p
            && p[20..] == PutAll(m.u64s, 8) + (PutAll(m.u32s, 4) + m.body)
            && p[pos..] == PutAll(m.u32s, 4) + m.body
            && p[pos + 4 * |m.u32s|..] == m.body
  {
    Parts(Header(m), PutAll(m.u64s, 8), PutAll(m.u32s, 4), m.body);
  }

  lemma FieldsFit(m: Message)
    ensures Fit(m.u64s, 8) && Fit(m.u32s, 4)
  {
    RangeValues();
  }

  lemma DecodeOfPayload(m: Message)
    requires Valid(m)
    ensures DecodeSpec(Payload(m)) == Ok(m)
  {
    PayloadParts(m);
    HeaderWords(m, Payload(m));
    FieldsFit(m);
    GetAllOfPutAll(m.u64s, 8, PutAll(m.u32s, 4) + m.body);
    GetAllOfPutAll(m.u32s, 4, m.body);
  }

  lemma HeaderOfWords(p: seq<byte>, m: Message)
    requires |p| >= 20
    requires m.version == WordAt(p, 0) && m.kind == WordAt(p, 4)
    requires |m.u64s| == WordAt(p, 8) && |m.u32s| == WordAt(p, 12) && |m.body| == WordAt(p, 16)
    ensures Header(m) == p[..20]
  {
    LeOfFromLe(p[0..4]);
    LeOfFromLe(p[4..8]);
    LeOfFromLe(p[8..12]);
    LeOfFromLe(p[12..16]);
    LeOfFromLe(p[16..20]);
    FiveWords(p);
  }

  lemma FiveWords(p: seq<byte>)
    requires |p| >= 20
    ensures p[..20] == p[0..4] + p[4..8] + p[8..12] + p[12..16] + p[16..20]
  {
  }

  lemma FieldsRewritten(p: seq<byte>, pos: nat, width: nat, n: nat)
    requires pos + width * n <= |p|
    ensures PutAll(GetAll(p[pos..], width, n), width) == p[pos..pos + width * n]
  {
    PutAllOfGetAll(p[pos..], width, n);
    assert p[pos..][..width * n] == p[pos..pos + width * n];
  }

  lemma Cuts(p: seq<byte>, i: nat, j: nat, k: nat)
    requires i <= j <= k <= |p|
    ensures p[..i] + p[i..j] + p[j..k] + p[k..] == p
  {
  }

  lemma PayloadOfDecode(p: seq<byte>, m: Message)
    requires DecodeSpec(p) == Ok(m)
    ensures Valid(m) && Payload(m) == p
  {
    var n64, n32 := WordAt(p, 8), WordAt(p, 12);
    var pos := 20 + 8 * n64;
    var end := pos + 4 * n32;
    HeaderOfWords(p, m);
    FieldsRewritten(p, 20, 8, n64);
    FieldsRewritten(p, pos, 4, n32);
    Cuts(p, 20, pos, end);
  }

  /** The encoder accepts types the decoder refuses: a message crosses the wire exactly when its type is declared. */
  lemma EncodedTypeSurvivesIffDeclared(m: Message)
    requires Encodable(m)
    ensures DecodeSpec(Payload(m)) == Ok(m) <==> m.kind <= SHUTDOWN
    ensures m.kind > SHUTDOWN ==> DecodeSpec(Payload(m)) == Err(UnknownMessageType)
  {
    if m.kind <= SHUTDOWN {
      DecodeOfPayload(m);
    } else {
      PayloadParts(m);
      HeaderWords(m, Payload(m));
    }
  }

  // ---------------------------------------------------------------------------
  // Frames
  // ---------------------------------------------------------------------------

  function Frame(payload: seq<byte>): seq<byte> {
    Le(|payload|, FRAME_LEN_WIDTH) + payload
  }

  predicate Framable(payload: seq<byte>) {
    0 < |payload| <= MAX_FRAME_SIZE
  }

  method AddFramePrefix(payload: seq<byte>) returns (r: Result<seq<byte>, WireError>)
    ensures r == if |payload| > MAX_FRAME_SIZE then Err(OversizedFrame) else Ok(Frame(payload))
  {
    if |payload| > MAX_FRAME_SIZE {
      return Err(OversizedFrame);
    }
    var out := Put([], |payload|, FRAME_LEN_WIDTH);
    assert out == Le(|payload|, FRAME_LEN_WIDTH);
    r := Ok(out + payload);
  }

  function ExtractSpec(stream: seq<byte>): Result<seq<byte>, WireError> {
    if |stream| < FRAME_LEN_WIDTH then Err(TruncatedFrame)
    else
      var len := WordAt(stream, 0);
      if len == 0 then Err(ZeroLengthMessage)
      else if len > MAX_FRAME_SIZE then Err(OversizedFrame)
      else if |stream| < FRAME_LEN_WIDTH + len then Err(TruncatedFrame)
      else Ok(stream[FRAME_LEN_WIDTH..FRAME_LEN_WIDTH + len])
  }

  method ExtractFrame(stream: seq<byte>) returns (r: Result<seq<byte>, WireError>)
    ensures r == ExtractSpec(stream)
  {
    if |stream| < FRAME_LEN_WIDTH {
      return Err(TruncatedFrame);
    }
    var len := Get(stream, 0, FRAME_LEN_WIDTH);
    if len == 0 {
      return Err(ZeroLengthMessage);
    }
    if len > MAX_FRAME_SIZE {
      return Err(OversizedFrame);
    }
    if |stream| < FRAME_LEN_WIDTH + len {
      return Err(TruncatedFrame);
    }
    r := Ok(stream[FRAME_LEN_WIDTH..FRAME_LEN_WIDTH + len]);
  }

  /** A frame is extracted from a stream exactly when the stream starts with that payload's framing. */
  lemma ExtractsExactlyTheFirstFrame(stream: seq<byte>, payload: seq<byte>)
    ensures ExtractSpec(stream) == Ok(payload) <==> Framable(payload) && Frame(payload) <= stream
  {
    RangeValues();
    if Framable(payload) && Frame(payload) <= stream {
      assert stream[0..4] == Frame(payload)[0..4] == Le(|payload|, 4);
      FromLeOfLe(|payload|, 4);
      assert stream[4..4 + |payload|] == Frame(payload)[4..];
    }
    if ExtractSpec(stream) == Ok(payload) {
      LeOfFromLe(stream[0..4]);
      assert stream[..4 + |payload|] == stream[0..4] + payload;
    }
  }

  /** Every encoded message fits a frame and is never empty. */
  lemma EncodedIsFramable(m: Message)
    requires Encodable(m)
    ensures Framable(Payload(m)) && |Payload(m)| >= 20
  {
  }
}
