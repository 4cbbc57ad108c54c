/** The two variable-length integer schemes (src/varint.rs): a MultiPacket length may be one byte up
    to 0xFF, a data-bundle length only up to 0xFE. Larger values take 3 or 7 bytes in both. */
module Varint {
  import opened Bytes

  /** A decoded length and the number of bytes its encoding takes. */
  datatype Prefix = Prefix(value: nat, size: nat)

  function MultiByte(length: nat): bytes {
    if length < 0xFFFF then [0xFF] + U16(length) else [0xFF, 0xFF, 0xFF] + U32(length)
  }

  function EncodeMultiPacket(length: nat): bytes {
    if length <= 0xFF then [length] else MultiByte(length)
  }

  function EncodeDataBundle(length: nat): bytes {
    if length < 0xFF then [length] else MultiByte(length)
  }

  function MultiPacketSize(length: nat): nat {
    if length <= 0xFF then 1 else if length < 0xFFFF then 3 else 7
  }

  function DataBundleSize(length: nat): nat {
    if length < 0xFF then 1 else if length < 0xFFFF then 3 else 7
  }

  /** The forms that start with 0xFF, once the one-byte form is ruled out. */
  function DecodeMultiByte(b: bytes): Option<Prefix>
    requires b != []
  {
    if |b| > 2 && b[1] == 0xFF && b[2] == 0xFF then
      if |b| >= 7 then Some(Prefix(ReadU32(b[3..]), 7)) else None
    else
      if |b| >= 3 then Some(Prefix(ReadU16(b[1..]), 3)) else None
  }

  function DecodeMultiPacket(b: bytes): (p: Option<Prefix>)
    ensures p.Some? ==> 1 <= p.value.size <= |b|
  {
    if b == [] then None
    else if b[0] < 0xFF then Some(Prefix(b[0], 1))
    else if |b| > 1 && b[1] == 0 then Some(Prefix(0xFF, 1))
    else DecodeMultiByte(b)
  }

  function DecodeDataBundle(b: bytes): (p: Option<Prefix>)
    ensures p.Some? ==> 1 <= p.value.size <= |b|
  {
    if b == [] then None
    else if b[0] < 0xFF then Some(Prefix(b[0], 1))
    else DecodeMultiByte(b)
  }

  lemma MultiByteRoundTrip(length: nat, rest: bytes)
    requires 0xFF <= length < 0x1_0000_0000
    ensures var b := MultiByte(length) + rest;
            DecodeMultiByte(b) == Some(Prefix(length, if length < 0xFFFF then 3 else 7))
  {
    var b := MultiByte(length) + rest;
    if length < 0xFFFF {
      assert b[1] == U16(length)[0] && b[2] == U16(length)[1];
    } else {
      assert b[3..] == U32(length) + rest;
      ReadU32Prefix(U32(length), rest);
      U32Truncates(length);
    }
  }

  /** A data-bundle length decodes to itself whatever follows it. */
  lemma DataBundleRoundTrip(length: nat, rest: bytes)
    requires length < 0x1_0000_0000
    ensures |EncodeDataBundle(length)| == DataBundleSize(length)
    ensures DecodeDataBundle(EncodeDataBundle(length) + rest) == Some(Prefix(length, DataBundleSize(length)))
  {
    if length >= 0xFF { MultiByteRoundTrip(length, rest); }
  }

  /** No other encoding of a length is shorter. */
  lemma EncodingsAreShortest(b: bytes)
    ensures var p := DecodeDataBundle(b); p.Some? ==> p.value.size >= |EncodeDataBundle(p.value.value)|
    ensures var p := DecodeMultiPacket(b); p.Some? ==> p.value.size >= |EncodeMultiPacket(p.value.value)|
  {
  }

  /** A MultiPacket length does too, except 0xFF: that one decodes correctly exactly when the
      sub-packet it prefixes starts with the zero byte of a core OP code. */
  lemma MultiPacketRoundTrip(length: nat, rest: bytes)
    requires length < 0x1_0000_0000
    ensures |EncodeMultiPacket(length)| == MultiPacketSize(length)
    ensures DecodeMultiPacket(EncodeMultiPacket(length) + rest) == Some(Prefix(length, MultiPacketSize(length)))
       <==> length != 0xFF || (rest != [] && rest[0] == 0)
  {
    if length > 0xFF { MultiByteRoundTrip(length, rest); }
  }
}

/** The readers and writers of src/varint.rs on a cursor, proved against module Varint. */
module VarintCursor {
  import opened Bytes
  import opened Io
  import opened Varint

  /** Reads a MultiPacket length. A failure may already have moved the cursor. */
  method ReadMultiPacket(reader: BinaryReader) returns (length: Option<nat>)
    requires reader.Valid()
    modifies reader
    ensures reader.Valid() && old(reader.offset) <= reader.offset
    ensures var p := DecodeMultiPacket(old(reader.Rest()));
            if p.None? then length == None else
              length == Some(p.value.value) && reader.offset == old(reader.offset) + p.value.size
  {
    var b0 := reader.Peek(0);
    if b0.None? { return None; }
    if b0.value < 0xFF {
      var _ := reader.Skip(1);
      length := Some(b0.value);
    } else if reader.Peek(1) == Some(0) {
      var _ := reader.Skip(1);
      length := Some(0xFF);
    } else {
      length := ReadMultiByte(reader);
    }
  }

  method ReadDataBundle(reader: BinaryReader) returns (length: Option<nat>)
    requires reader.Valid()
    modifies reader
    ensures reader.Valid() && old(reader.offset) <= reader.offset
    ensures var p := DecodeDataBundle(old(reader.Rest()));
            if p.None? then length == None else
              length == Some(p.value.value) && reader.offset == old(reader.offset) + p.value.size
  {
    var b0 := reader.Peek(0);
    if b0.None? { return None; }
    if b0.value < 0xFF {
      var _ := reader.Skip(1);
      length := Some(b0.value);
    } else {
      length := ReadMultiByte(reader);
    }
  }

  method ReadMultiByte(reader: BinaryReader) returns (length: Option<nat>)
    requires reader.Valid() && reader.Rest() != []
    modifies reader
    ensures reader.Valid() && old(reader.offset) <= reader.offset
    ensures var p := DecodeMultiByte(old(reader.Rest()));
            if p.None? then length == None else
              length == Some(p.value.value) && reader.offset == old(reader.offset) + p.value.size
  {
    if reader.Peek(1) == Some(0xFF) && reader.Peek(2) == Some(0xFF) {
      var _ := reader.Skip(3);
      length := reader.ReadU32();
    } else {
      var _ := reader.Skip(1);
      length := reader.ReadU16();
    }
  }

  method WriteMultiByte(writer: BinaryWriter, length: nat) returns (ok: bool)
    requires writer.Valid() && length < 0x1_0000_0000
    modifies writer, writer.data
    ensures writer.Valid()
    ensures ok == (old(writer.offset) + |MultiByte(length)| <= writer.data.Length)
    ensures ok ==> writer.Written() == old(writer.Written()) + MultiByte(length)
  {
    ok := writer.WriteU8(0xFF);
    if !ok { return; }
    if length < 0xFFFF {
      ok := writer.WriteU16(length);
    } else {
      ok := writer.WriteU8(0xFF);
      if !ok { return; }
      ok := writer.WriteU8(0xFF);
      if !ok { return; }
      ok := writer.WriteU32(length);
    }
  }

  method WriteMultiPacket(writer: BinaryWriter, length: nat) returns (ok: bool)
    requires writer.Valid() && length < 0x1_0000_0000
    modifies writer, writer.data
    ensures writer.Valid()
    ensures ok == (old(writer.offset) + MultiPacketSize(length) <= writer.data.Length)
    ensures ok ==> writer.Written() == old(writer.Written()) + EncodeMultiPacket(length)
  {
    if length <= 0xFF {
      ok := writer.WriteU8(length);
    } else {
      ok := WriteMultiByte(writer, length);
    }
  }
}
