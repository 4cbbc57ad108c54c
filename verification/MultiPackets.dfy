/** Bundling of sub-packets into a MultiPacket payload and back (src/packet_utils.rs). */
module MultiPackets {
  import opened Bytes
  import opened Varint
  import opened VarintCursor
  import opened Io

  function PackAll(subs: seq<bytes>): bytes {
    if subs == [] then [] else EncodeMultiPacket(|subs[0]|) + subs[0] + PackAll(subs[1..])
  }

  function PackedSize(subs: seq<bytes>): nat {
    if subs == [] then 0 else MultiPacketSize(|subs[0]|) + |subs[0]| + PackedSize(subs[1..])
  }

  /** The first sub-packet of a payload and where it ends: its length must decode, be at least an OP
      code, and not run past the payload. */
  datatype First = First(sub: bytes, end: nat)

  function FirstSub(payload: bytes): (f: Option<First>)
    ensures f.Some? ==> 2 <= |f.value.sub| && |f.value.sub| < f.value.end <= |payload|
  {
    var p := DecodeMultiPacket(payload);
    if p.None? || p.value.value < 2 || p.value.value > |payload| - p.value.size then None
    else Some(First(payload[p.value.size..p.value.size + p.value.value], p.value.size + p.value.value))
  }

  /** All sub-packets of a payload, or `None` when it is malformed anywhere. */
  function SubPackets(payload: bytes): Option<seq<bytes>>
    decreases |payload|
  {
    if payload == [] then Some([]) else
      var first := FirstSub(payload);
      if first.None? then None else
        var rest := SubPackets(payload[first.value.end..]);
        if rest.None? then None else Some([first.value.sub] + rest.value)
  }

  /** The sub-packets in front of the first malformed one. */
  function Leading(payload: bytes): (subs: seq<bytes>)
    ensures forall k | 0 <= k < |subs| :: 2 <= |subs[k]| < |payload|
    decreases |payload|
  {
    var first := FirstSub(payload);
    if payload == [] || first.None? then [] else [first.value.sub] + Leading(payload[first.value.end..])
  }

  /** A well-formed payload has no others. */
  lemma {:induction false} LeadingIsAll(payload: bytes)
    ensures SubPackets(payload).Some? ==> Leading(payload) == SubPackets(payload).value
    decreases |payload|
  {
    hide FirstSub;
    var first := FirstSub(payload);
    if payload != [] && first.Some? { LeadingIsAll(payload[first.value.end..]); }
  }

  /** What a sub-packet needs to survive packing: an OP code, a length of 32 bits, and for the one
      ambiguous length the leading zero byte of a core OP code. */
  predicate Packable(sub: bytes) {
    2 <= |sub| < 0x1_0000_0000 && (|sub| == 0xFF ==> sub[0] == 0)
  }

  lemma FirstPacked(sub: bytes, rest: bytes)
    requires Packable(sub)
    ensures var payload := EncodeMultiPacket(|sub|) + sub + rest;
            && FirstSub(payload) == Some(First(sub, MultiPacketSize(|sub|) + |sub|))
            && payload[MultiPacketSize(|sub|) + |sub|..] == rest
  {
    var payload, size := EncodeMultiPacket(|sub|) + sub + rest, MultiPacketSize(|sub|);
    MultiPacketRoundTrip(|sub|, sub + rest);
    assert payload == EncodeMultiPacket(|sub|) + (sub + rest);
    assert payload[size..size + |sub|] == sub;
  }

  /** Unpacking undoes packing, and packing takes exactly the computed size. */
  lemma {:induction false} PackRoundTrip(subs: seq<bytes>)
    requires forall k | 0 <= k < |subs| :: Packable(subs[k])
    ensures SubPackets(PackAll(subs)) == Some(subs)
    ensures |PackAll(subs)| == PackedSize(subs)
  {
    hide EncodeMultiPacket, FirstSub;
    if subs != [] {
      FirstPacked(subs[0], PackAll(subs[1..]));
      PackRoundTrip(subs[1..]);
      MultiPacketRoundTrip(|subs[0]|, subs[0]);
      assert [subs[0]] + subs[1..] == subs;
    }
  }

  /** No length is written in fewer bytes than the encoder takes. */
  lemma EncodingIsShortest(payload: bytes)
    ensures var p := DecodeMultiPacket(payload);
            p.Some? ==> p.value.size >= MultiPacketSize(p.value.value)
  {
  }

  lemma {:induction false} SubPacketsTakeSpace(payload: bytes)
    ensures var subs := SubPackets(payload);
            subs.Some? ==> |payload| >= PackedSize(subs.value)
    decreases |payload|
  {
    hide DecodeMultiPacket;
    var first := FirstSub(payload);
    if payload != [] && first.Some? {
      EncodingIsShortest(payload);
      SubPacketsTakeSpace(payload[first.value.end..]);
      var rest := SubPackets(payload[first.value.end..]);
      if rest.Some? { assert ([first.value.sub] + rest.value)[1..] == rest.value; }
    }
  }

  /** The condition is exact: if packed sub-packets come back, each of them was packable. */
  lemma {:induction false} PackRoundTripIff(subs: seq<bytes>)
    requires forall k | 0 <= k < |subs| :: |subs[k]| < 0x1_0000_0000
    ensures SubPackets(PackAll(subs)) == Some(subs) <==> forall k | 0 <= k < |subs| :: Packable(subs[k])
  {
    if forall k | 0 <= k < |subs| :: Packable(subs[k]) {
      PackRoundTrip(subs);
    } else if SubPackets(PackAll(subs)) == Some(subs) {
      FirstWasPackable(subs);
      FirstPacked(subs[0], PackAll(subs[1..]));
      PackRoundTripIff(subs[1..]);
    }
  }

  lemma {:induction false} PackTakesSize(subs: seq<bytes>)
    requires forall k | 0 <= k < |subs| :: |subs[k]| < 0x1_0000_0000
    ensures |PackAll(subs)| == PackedSize(subs)
  {
    hide EncodeMultiPacket;
    if subs != [] {
      MultiPacketRoundTrip(|subs[0]|, []);
      PackTakesSize(subs[1..]);
    }
  }

  lemma FirstOf(payload: bytes, subs: seq<bytes>)
    requires subs != [] && SubPackets(payload) == Some(subs)
    ensures var first := FirstSub(payload);
            && first.Some? && first.value.sub == subs[0]
            && SubPackets(payload[first.value.end..]) == Some(subs[1..])
  {
    hide FirstSub;
    var first := FirstSub(payload).value;
    var rest := SubPackets(payload[first.end..]).value;
    assert subs == [first.sub] + rest && ([first.sub] + rest)[1..] == rest;
  }

  lemma FirstWasPackable(subs: seq<bytes>)
    requires forall k | 0 <= k < |subs| :: |subs[k]| < 0x1_0000_0000
    requires subs != [] && SubPackets(PackAll(subs)) == Some(subs)
    ensures Packable(subs[0]) && SubPackets(PackAll(subs[1..])) == Some(subs[1..])
  {
    hide DecodeMultiPacket, EncodeMultiPacket, MultiPacketSize, SubPackets;
    var payload, sub, later := PackAll(subs), subs[0], PackAll(subs[1..]);
    FirstOf(payload, subs);
    MultiPacketRoundTrip(|sub|, sub + later);
    assert payload == EncodeMultiPacket(|sub|) + (sub + later);
    PackTakesSize(subs[1..]);
    var end := FirstSub(payload).value.end;
    EncodingIsShortest(payload);
    SubPacketsTakeSpace(payload[end..]);
    assert payload[end..] == later;
  }

  method Unpack(payload: bytes) returns (subs: Option<seq<bytes>>)
    ensures subs == SubPackets(payload)
  {
    hide FirstSub;
    var reader := new BinaryReader(payload);
    var out: seq<bytes> := [];
    PrependNothing(SubPackets(payload));
    while |reader.data| - reader.offset > 0
      invariant reader.Valid() && fresh(reader)
      invariant SubPackets(payload) == Prepend(out, SubPackets(reader.Rest()))
      decreases |reader.data| - reader.offset
    {
      ghost var rest := reader.Rest();
      var sub := ReadSub(reader);
      if sub.None? { return None; }
      PrependStep(out, rest, reader.Rest());
      out := out + [sub.value];
    }
    assert out + [] == out;
    subs := Some(out);
  }

  ghost function Prepend(front: seq<bytes>, rest: Option<seq<bytes>>): Option<seq<bytes>> {
    if rest.None? then None else Some(front + rest.value)
  }

  lemma PrependNothing(rest: Option<seq<bytes>>)
    ensures Prepend([], rest) == rest
  {
    if rest.Some? { assert [] + rest.value == rest.value; }
  }

  lemma PrependStep(front: seq<bytes>, payload: bytes, rest: bytes)
    requires payload != [] && FirstSub(payload).Some? && rest == payload[FirstSub(payload).value.end..]
    ensures Prepend(front, SubPackets(payload)) == Prepend(front + [FirstSub(payload).value.sub], SubPackets(rest))
  {
    hide FirstSub;
    var sub := FirstSub(payload).value.sub;
    if SubPackets(rest).Some? {
      assert front + ([sub] + SubPackets(rest).value) == (front + [sub]) + SubPackets(rest).value;
    }
  }

  /** The body of the unpacking loop. */
  method ReadSub(reader: BinaryReader) returns (sub: Option<bytes>)
    requires reader.Valid()
    modifies reader
    ensures reader.Valid()
    ensures var first := FirstSub(old(reader.Rest()));
            if first.None? then sub == None else
              && sub == Some(first.value.sub)
              && reader.Rest() == old(reader.Rest())[first.value.end..]
              && reader.offset == old(reader.offset) + first.value.end
  {
    hide DecodeMultiPacket;
    ghost var rest := reader.Rest();
    ghost var start := reader.offset;
    var length := ReadMultiPacket(reader);
    if length.None? { return None; }
    if length.value < 2 || length.value > |reader.data| - reader.offset { return None; }
    ghost var size := reader.offset - start;
    assert reader.Rest() == rest[size..];
    assert rest[size..][..length.value] == rest[size..size + length.value];
    assert rest[size..][length.value..] == rest[size + length.value..];
    sub := reader.ReadBytes(length.value);
  }

  /** Packs into a buffer; fails when the buffer is shorter than the packed size. */
  method Pack(subs: seq<bytes>, buffer: array<byte>) returns (written: Option<nat>)
    requires forall k | 0 <= k < |subs| :: |subs[k]| < 0x1_0000_0000
    modifies buffer
    ensures written == if PackedSize(subs) <= buffer.Length then Some(PackedSize(subs)) else None
    ensures written.Some? ==> buffer[..written.value] == PackAll(subs)
  {
    hide EncodeMultiPacket, MultiPacketSize;
    var writer := new BinaryWriter(buffer);
    for i := 0 to |subs|
      invariant writer.Valid() && fresh(writer) && writer.data == buffer
      invariant writer.Written() + PackAll(subs[i..]) == PackAll(subs)
      invariant writer.offset + PackedSize(subs[i..]) == PackedSize(subs)
    {
      ghost var before := writer.Written();
      PackStep(subs, i, before);
      var ok := WriteMultiPacket(writer, |subs[i]|);
      if !ok { return None; }
      ok := writer.WriteBytes(subs[i]);
      if !ok { return None; }
    }
    assert writer.Written() + [] == writer.Written();
    written := Some(writer.offset);
  }

  lemma PackStep(subs: seq<bytes>, i: nat, before: bytes)
    requires i < |subs| && |subs[i]| < 0x1_0000_0000
    ensures before + PackAll(subs[i..])
         == before + EncodeMultiPacket(|subs[i]|) + subs[i] + PackAll(subs[i + 1..])
    ensures PackedSize(subs[i..]) == |EncodeMultiPacket(|subs[i]|)| + |subs[i]| + PackedSize(subs[i + 1..])
    ensures |EncodeMultiPacket(|subs[i]|)| == MultiPacketSize(|subs[i]|)
  {
    hide EncodeMultiPacket, MultiPacketSize;
    MultiPacketRoundTrip(|subs[i]|, []);
    assert subs[i..][0] == subs[i] && subs[i..][1..] == subs[i + 1..];
  }
}
