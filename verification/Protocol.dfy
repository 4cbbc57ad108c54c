/** OP codes and the framing of datagrams (src/protocol.rs, src/packet_utils.rs, and the framing
    methods of src/session.rs). The CRC is an arbitrary function of a seed and the bytes it covers. */
module Protocol {
  import opened Bytes

  datatype OpCode =
    | SessionRequest | SessionResponse | MultiPacket | Disconnect | Heartbeat
    | NetStatusRequest | NetStatusResponse
    | ReliableData | ReliableDataFragment | Acknowledge | AcknowledgeAll
    | UnknownSender | RemapConnection

  function FromU16(value: nat): Option<OpCode> {
    match value
    case 0x01 => Some(SessionRequest)
    case 0x02 => Some(SessionResponse)
    case 0x03 => Some(MultiPacket)
    case 0x05 => Some(Disconnect)
    case 0x06 => Some(Heartbeat)
    case 0x07 => Some(NetStatusRequest)
    case 0x08 => Some(NetStatusResponse)
    case 0x1D => Some(UnknownSender)
    case 0x1E => Some(RemapConnection)
    case _ =>
      if 0x09 <= value <= 0x0C then Some(ReliableData)
      else if 0x0D <= value <= 0x10 then Some(ReliableDataFragment)
      else if 0x11 <= value <= 0x14 then Some(Acknowledge)
      else if 0x15 <= value <= 0x18 then Some(AcknowledgeAll)
      else None
  }

  function AsU16(op: OpCode): (value: nat)
    ensures value < 0x1_0000
  {
    match op
    case SessionRequest => 0x01
    case SessionResponse => 0x02
    case MultiPacket => 0x03
    case Disconnect => 0x05
    case Heartbeat => 0x06
    case NetStatusRequest => 0x07
    case NetStatusResponse => 0x08
    case ReliableData => 0x09
    case ReliableDataFragment => 0x0D
    case Acknowledge => 0x11
    case AcknowledgeAll => 0x15
    case UnknownSender => 0x1D
    case RemapConnection => 0x1E
  }

  predicate IsContextless(op: OpCode) {
    op in {SessionRequest, SessionResponse, NetStatusRequest, NetStatusResponse, UnknownSender, RemapConnection}
  }

  predicate HasChannels(op: OpCode) {
    op in {ReliableData, ReliableDataFragment, Acknowledge, AcknowledgeAll}
  }

  /** The channel index inside one of the four ranges of OP codes. */
  function ReliableChannel(raw: nat): (ch: nat)
    ensures ch < 4
  {
    if 0x09 <= raw <= 0x0C then raw - 0x09
    else if 0x0D <= raw <= 0x10 then raw - 0x0D
    else if 0x11 <= raw <= 0x14 then raw - 0x11
    else if 0x15 <= raw <= 0x18 then raw - 0x15
    else 0
  }

  /** The wire OP code determines kind and channel, and every kind and channel has one. */
  lemma OpCodesAreUnambiguous(op: OpCode, ch: nat, raw: nat)
    requires ch < 4 && (ch == 0 || HasChannels(op))
    ensures raw == AsU16(op) + ch <==> FromU16(raw) == Some(op) && ReliableChannel(raw) == ch
  {
  }

  /** How a session frames its packets. */
  datatype Codec = Codec(hash: (nat, bytes) -> nat, crcSeed: nat, crcLength: nat, compression: bool)

  /** The CRC of `body`: the low `crcLength` bytes, big-endian. */
  function Crc(c: Codec, body: bytes): (crc: bytes)
    requires c.crcLength <= 4
    ensures |crc| == c.crcLength
  {
    U32(c.hash(c.crcSeed, body))[4 - c.crcLength..]
  }

  /** Appends the CRC in place; `None` when it does not fit behind the bytes written. */
  method AppendCrc(buffer: array<byte>, written: nat, c: Codec) returns (total: Option<nat>)
    requires c.crcLength <= 4 && written <= buffer.Length
    modifies buffer
    ensures total == if written + c.crcLength <= buffer.Length then Some(written + c.crcLength) else None
    ensures total.Some? ==> buffer[..total.value] == old(buffer[..written]) + Crc(c, old(buffer[..written]))
  {
    if c.crcLength == 0 {
      assert buffer[..written] + Crc(c, buffer[..written]) == buffer[..written];
      return Some(written);
    }
    if written + c.crcLength > buffer.Length { return None; }
    var crc := U32(c.hash(c.crcSeed, buffer[..written]))[4 - c.crcLength..];
    for i := 0 to c.crcLength
      invariant buffer[..written] == old(buffer[..written])
      invariant buffer[written..written + i] == crc[..i]
    {
      buffer[written + i] := crc[i];
    }
    assert buffer[..written + c.crcLength] == buffer[..written] + buffer[written..written + c.crcLength];
    total := Some(written + c.crcLength);
  }

  function FrameUnreliable(c: Codec, payload: bytes): bytes
    requires payload != [] && c.crcLength <= 4
  {
    var body := if payload[0] == 0 then [0] + payload else payload;
    body + Crc(c, body)
  }

  function FrameContextual(c: Codec, raw: nat, payload: bytes): bytes
    requires c.crcLength <= 4
  {
    var body := U16(raw) + (if c.compression then [0] else []) + payload;
    body + Crc(c, body)
  }

  datatype Validation = Valid | TooShort | CrcMismatch | InvalidOpCode

  function ReadOpCode(data: bytes): Option<OpCode> {
    if |data| < 2 then None else FromU16(ReadU16(data))
  }

  function MinimumLength(c: Codec, op: OpCode): nat {
    var pad := 2 + (if c.compression then 1 else 0) + c.crcLength;
    match op
    case SessionRequest => 15
    case SessionResponse => 21
    case MultiPacket => pad + 2
    case Disconnect => pad + 6
    case Heartbeat => pad
    case NetStatusRequest => pad
    case NetStatusResponse => pad
    case ReliableData => pad + 3
    case ReliableDataFragment => pad + 3
    case Acknowledge => pad + 2
    case AcknowledgeAll => pad + 2
    case UnknownSender => 2
    case RemapConnection => 10
  }

  /** A CRC is computed to tell what a datagram is. */
  predicate NeedsCrc(c: Codec, running: bool, data: bytes) {
    |data| >= 2 &&
      var op := ReadOpCode(data);
      if op.None? then running && |data| >= c.crcLength + 1
      else MinimumLength(c, op.value) <= |data| && !IsContextless(op.value)
  }

  function Validate(c: Codec, data: bytes): Validation
    requires c.crcLength <= 4 || !NeedsCrc(c, false, data)
  {
    if |data| < 2 then TooShort else
      var op := ReadOpCode(data);
      if op.None? then InvalidOpCode
      else if MinimumLength(c, op.value) > |data| then TooShort
      else if IsContextless(op.value) || c.crcLength == 0 then Valid
      else
        var split := |data| - c.crcLength;
        if Crc(c, data[..split]) == data[split..] then Valid else CrcMismatch
  }

  /** What a session takes a datagram for. */
  datatype Class =
    | Contextless(op: OpCode, body: bytes)
    | Contextual(op: OpCode, channel: nat, body: bytes)
    | Unreliable(payload: bytes)
    | Dropped
    | Corrupt

  function ClassifyUnreliable(c: Codec, running: bool, data: bytes): (read: Class)
    requires c.crcLength <= 4 || !running || |data| < c.crcLength + 1
    ensures read.Unreliable? || read.Dropped? || read.Corrupt?
    ensures read.Unreliable? ==> running
  {
    if !running || |data| < c.crcLength + 1 then Corrupt else
      var split := |data| - c.crcLength;
      var body := data[..split];
      if Crc(c, body) != data[split..] then Dropped
      else if body[0] != 0 then Unreliable(body)
      else if |body| < 2 || body[1] != 0 then Corrupt
      else Unreliable(body[1..])
  }

  function Classify(c: Codec, running: bool, data: bytes): (read: Class)
    requires c.crcLength <= 4 || !NeedsCrc(c, running, data)
    ensures read.Contextual? ==> read.channel < 4
    ensures c.crcLength > 4 ==> read.Corrupt? || read.Contextless?
  {
    match Validate(c, data)
    case InvalidOpCode => ClassifyUnreliable(c, running, data)
    case Valid =>
      var op := ReadOpCode(data).value;
      if IsContextless(op) then Contextless(op, data[2..])
      else Contextual(op, ReliableChannel(ReadU16(data)), data[2..|data| - c.crcLength])
    case _ => Corrupt
  }

  // ----- What the bytes say ------------------------------------------------------------------

  /** The codes on the wire. Those of the reliable channels come in ranges of four. */
  lemma WireCodes(data: bytes, ch: nat)
    requires |data| >= 2 && ch < 4
    ensures var op, at, code := ReadOpCode(data), ReliableChannel(ReadU16(data)), data[0] as int * 256 + data[1];
            && (op == Some(ReliableData) && at == ch <==> code == 0x09 + ch)
            && (op == Some(ReliableDataFragment) && at == ch <==> code == 0x0D + ch)
            && (op == Some(Acknowledge) && at == ch <==> code == 0x11 + ch)
            && (op == Some(AcknowledgeAll) && at == ch <==> code == 0x15 + ch)
            && (op == Some(SessionRequest) <==> code == 0x01) && (op == Some(SessionResponse) <==> code == 0x02)
            && (op == Some(MultiPacket) <==> code == 0x03) && (op == Some(Disconnect) <==> code == 0x05)
            && (op == Some(Heartbeat) <==> code == 0x06) && (op == Some(UnknownSender) <==> code == 0x1D)
            && (op.Some? ==> code <= 0x1E)
  {
  }

  /** The last bytes of a datagram are the low bytes of the hash of the rest. */
  predicate Checked(c: Codec, data: bytes)
    requires c.crcLength <= 4
  {
    && c.crcLength <= |data|
    && var split := |data| - c.crcLength;
       data[split..] == U32(c.hash(c.crcSeed, data[..split]))[4 - c.crcLength..]
  }

  /** The bytes that a kind of packet needs behind its OP code and compression flag. */
  function Least(op: OpCode): nat {
    match op
    case MultiPacket => 2
    case Disconnect => 6
    case ReliableData => 3
    case ReliableDataFragment => 3
    case Acknowledge => 2
    case AcknowledgeAll => 2
    case _ => 0
  }

  /** Exactly the datagrams that are taken for packets of a session: known kinds that are long enough, with
      the right CRC. */
  lemma ContextualIff(c: Codec, running: bool, data: bytes, op: OpCode, ch: nat, body: bytes)
    requires c.crcLength <= 4
    ensures Classify(c, running, data) == Contextual(op, ch, body) <==>
      && ReadOpCode(data) == Some(op) && !IsContextless(op) && ch == ReliableChannel(ReadU16(data))
      && |data| >= 2 + (if c.compression then 1 else 0) + Least(op) + c.crcLength && Checked(c, data)
      && body == data[2..|data| - c.crcLength]
  {
    hide FromU16, ReliableChannel;
    if |data| >= c.crcLength { NoCrc(c, data); }
  }

  /** No CRC is none to check. */
  lemma NoCrc(c: Codec, data: bytes)
    requires c.crcLength <= 4 && c.crcLength <= |data|
    ensures c.crcLength == 0 ==> Checked(c, data)
  {
  }

  /** Exactly the datagrams that are taken for the handshake and the like: no CRC is asked of them. */
  lemma ContextlessIff(c: Codec, running: bool, data: bytes, op: OpCode, body: bytes)
    requires c.crcLength <= 4
    ensures Classify(c, running, data) == Contextless(op, body) <==>
      && ReadOpCode(data) == Some(op) && IsContextless(op) && body == data[2..]
      && |data| >= match op
                   case SessionRequest => 15
                   case SessionResponse => 21
                   case UnknownSender => 2
                   case RemapConnection => 10
                   case _ => 2 + (if c.compression then 1 else 0) + c.crcLength
  {
    hide FromU16, ReliableChannel, Crc;
  }

  /** Exactly the datagrams that are taken for unreliable data: on a running session, with no known OP code and
      the right CRC, starting with no zero or with two, the first of which is an escape. */
  lemma UnreliableIff(c: Codec, running: bool, data: bytes, payload: bytes)
    requires c.crcLength <= 4
    ensures Classify(c, running, data) == Unreliable(payload) <==>
      && running && |data| >= 2 && ReadOpCode(data).None? && |data| > c.crcLength && Checked(c, data)
      && var split := |data| - c.crcLength;
         if data[0] != 0 then payload == data[..split] else split >= 2 && data[1] == 0 && payload == data[1..split]
  {
    hide FromU16, ReliableChannel;
  }

  /** Exactly those that are dropped: the same with a wrong CRC. Any other datagram is corrupt. */
  lemma DroppedIff(c: Codec, running: bool, data: bytes)
    requires c.crcLength <= 4
    ensures Classify(c, running, data) == Dropped <==>
      running && |data| >= 2 && ReadOpCode(data).None? && |data| > c.crcLength && !Checked(c, data)
  {
    hide FromU16, ReliableChannel;
  }

  /** A valid datagram has a known OP code, and its class is what that code says. */
  lemma ClassifyValid(c: Codec, running: bool, data: bytes)
    requires (c.crcLength <= 4 || !NeedsCrc(c, running, data)) && Validate(c, data) == Valid
    ensures var op := ReadOpCode(data);
            && op.Some? && |data| >= 2 + (if IsContextless(op.value) then 0 else c.crcLength)
            && (op == Some(SessionResponse) ==> |data| >= 21)
            && Classify(c, running, data) ==
                 if IsContextless(op.value) then Contextless(op.value, data[2..])
                 else Contextual(op.value, ReliableChannel(ReadU16(data)), data[2..|data| - c.crcLength])
  {
    hide Crc, FromU16, ReliableChannel;
  }

  /** Only a datagram with an unknown OP code can be unreliable data. */
  lemma ClassifyInvalid(c: Codec, running: bool, data: bytes)
    requires (c.crcLength <= 4 || !NeedsCrc(c, running, data)) && Validate(c, data) != Valid
    ensures Classify(c, running, data) ==
      if Validate(c, data) == InvalidOpCode then ClassifyUnreliable(c, running, data) else Corrupt
    ensures Validate(c, data) == InvalidOpCode ==> ReadOpCode(data).None?
  {
    hide Crc, FromU16, ClassifyUnreliable;
  }

  /** The payload of a contextual packet: behind the compression flag, when there is one. `None` when
      the packet is empty and ignored, or cannot be inflated. */
  datatype Payload = Plain(payload: bytes) | Empty | NotInflatable

  function Decompress(c: Codec, inflate: bytes -> Option<bytes>, body: bytes): Payload {
    if !c.compression then Plain(body)
    else if body == [] then Empty
    else if body[0] == 0 then Plain(body[1..])
    else
      var inflated := inflate(body[1..]);
      if inflated.None? then NotInflatable else Plain(inflated.value)
  }

  /** An unreliable packet is read back as one with the same payload on a running session, exactly
      unless it is a single non-zero byte and there is no CRC: that datagram is shorter than an OP
      code. */
  lemma UnreliableRoundTrip(c: Codec, payload: bytes)
    requires payload != [] && c.crcLength <= 4
    ensures Classify(c, true, FrameUnreliable(c, payload)) == Unreliable(payload)
       <==> c.crcLength >= 1 || |payload| >= 2 || payload[0] == 0
  {
    var body := if payload[0] == 0 then [0] + payload else payload;
    var data := FrameUnreliable(c, payload);
    assert data[..|data| - c.crcLength] == body && data[|data| - c.crcLength..] == Crc(c, body);
  }

  /** A contextual packet is read back as the same kind, channel and payload, exactly when it meets
      the minimum length of its kind. */
  lemma ContextualRoundTrip(c: Codec, inflate: bytes -> Option<bytes>, running: bool, op: OpCode, ch: nat, payload: bytes)
    requires c.crcLength <= 4 && ch < 4 && (ch == 0 || HasChannels(op)) && !IsContextless(op)
    ensures var data := FrameContextual(c, AsU16(op) + ch, payload);
            var read := Classify(c, running, data);
            (read.Contextual? && read.op == op && read.channel == ch
              && Decompress(c, inflate, read.body) == Plain(payload))
            <==> |data| >= MinimumLength(c, op)
  {
    var raw := AsU16(op) + ch;
    var flag: bytes := if c.compression then [0] else [];
    var data := FrameContextual(c, raw, payload);
    FrameParts(c, raw, payload);
    OpCodesAreUnambiguous(op, ch, raw);
    hide FrameContextual, U16, FromU16, ReliableChannel, AsU16, Crc;
    assert c.compression ==> (flag + payload)[1..] == payload;
    assert !c.compression ==> flag + payload == payload;
  }

  lemma FrameParts(c: Codec, raw: nat, payload: bytes)
    requires c.crcLength <= 4 && raw < 0x1_0000
    ensures var flag: bytes := if c.compression then [0] else [];
            var data := FrameContextual(c, raw, payload);
            var split := |data| - c.crcLength;
            && split == 2 + |flag| + |payload|
            && data[split..] == Crc(c, data[..split])
            && ReadU16(data) == raw
            && data[2..split] == flag + payload
  {
    hide Crc;
    var flag: bytes := if c.compression then [0] else [];
    var body := U16(raw) + flag + payload;
    var data := FrameContextual(c, raw, payload);
    assert data[..|data| - c.crcLength] == body;
    assert data[0] == U16(raw)[0] && data[1] == U16(raw)[1];
    U16RoundTrip(raw, data);
  }
}
