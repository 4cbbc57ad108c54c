/** What happens to application data between `enqueue_data` and the receiver's application: encrypt,
    pad, fragment (src/channel/output.rs), then reassemble, unbundle, strip the pad and decrypt
    (src/channel/input.rs), as functions on the cipher and reassembly state. */
module DataCodec {
  import opened Bytes
  import opened Rc4
  import opened Varint

  /** A reliable data packet without its OP code and sequence. */
  datatype Item = Item(isFragment: bool, body: bytes)

  function Advance(c: Option<Cipher>, n: nat): Option<Cipher> {
    if c.None? then None else Some(After(c.value, n))
  }

  // ----- Sending ---------------------------------------------------------------------------

  /** The unit that goes on the wire: with a cipher, the ciphertext, padded with one zero byte when
      it starts with a zero byte itself. */
  function WireUnit(c: Option<Cipher>, data: bytes): bytes
    requires data != []
  {
    if c.None? then data else
      var cipherText := Transform(c.value, data);
      if cipherText[0] == 0 then [0] + cipherText else cipherText
  }

  /** The packets one unit becomes: a single one when it fits, else a master fragment with the total
      length and as many plain fragments as it takes. */
  function Fragments(maxDataLength: nat, unit: bytes): seq<Item>
    requires maxDataLength >= 6
  {
    var maxChunk := maxDataLength - 2;
    if |unit| <= maxChunk then [Item(false, unit)]
    else [Item(true, U32(|unit|) + unit[..maxChunk - 4])] + Pieces(maxChunk, unit[maxChunk - 4..])
  }

  function Pieces(maxChunk: nat, rest: bytes): seq<Item>
    requires maxChunk > 0
    decreases |rest|
  {
    if rest == [] then [] else
      var amount := Min(|rest|, maxChunk);
      [Item(true, rest[..amount])] + Pieces(maxChunk, rest[amount..])
  }

  lemma NoPieces(maxChunk: nat)
    requires maxChunk > 0
    ensures Pieces(maxChunk, []) == []
  {
  }

  /** The length field of a master fragment has 32 bits. */
  predicate LengthFits(maxDataLength: nat, unit: bytes) {
    |unit| + 2 <= maxDataLength || |unit| < 0x1_0000_0000
  }

  // ----- Receiving -------------------------------------------------------------------------

  datatype Plain = Plain(cipher: Option<Cipher>, output: seq<bytes>)

  /** A leading zero byte pads encrypted data and is dropped before decryption. */
  function Unpad(c: Option<Cipher>, data: bytes): bytes {
    if c.Some? && |data| > 1 && data[0] == 0 then data[1..] else data
  }

  function Decrypt(c: Option<Cipher>, data: bytes): bytes {
    if c.None? then data else Transform(c.value, Unpad(c, data))
  }

  function DecryptAll(c: Option<Cipher>, chunks: seq<bytes>): Plain
    decreases chunks
  {
    if chunks == [] then Plain(c, []) else
      var rest := DecryptAll(Advance(c, |Unpad(c, chunks[0])|), chunks[1..]);
      Plain(rest.cipher, [Decrypt(c, chunks[0])] + rest.output)
  }

  predicate IsBundle(data: bytes) {
    |data| > 2 && data[..2] == [0x00, 0x19]
  }

  /** The chunks of a bundle body, up to the first length that is malformed or runs past the end. */
  function Chunks(body: bytes): seq<bytes>
    decreases |body|
  {
    var p := DecodeDataBundle(body);
    if p.None? || p.value.size + p.value.value > |body| then [] else
      var end := p.value.size + p.value.value;
      [body[p.value.size..end]] + Chunks(body[end..])
  }

  function ProcessData(c: Option<Cipher>, data: bytes): Plain {
    DecryptAll(c, if IsBundle(data) then Chunks(data[2..]) else [data])
  }

  /** The cipher and the unit under reassembly. */
  datatype Decoder = Decoder(cipher: Option<Cipher>, buffer: Option<bytes>, expected: nat)

  /** A decoder after some packets, and the application data they released. */
  datatype Decoded = Decoded(decoder: Decoder, output: seq<bytes>)

  /** Appends a fragment; the first one of a unit must start with the total length. */
  function WriteFragment(d: Decoder, body: bytes): Option<Decoder> {
    if d.buffer.Some? then Some(d.(buffer := Some(d.buffer.value + body)))
    else if |body| < 4 then None
    else Some(d.(buffer := Some(body[4..]), expected := ReadU32(body)))
  }

  function TryProcess(d: Decoder): Decoded {
    if d.buffer.Some? && |d.buffer.value| >= d.expected then
      var p := ProcessData(d.cipher, d.buffer.value);
      Decoded(Decoder(p.cipher, None, 0), p.output)
    else Decoded(d, [])
  }

  /** One packet, taken in sequence; `None` is the source's CorruptData. */
  function Accept(d: Decoder, item: Item): Option<Decoded> {
    if item.isFragment then
      var w := WriteFragment(d, item.body);
      if w.None? then None else Some(TryProcess(w.value))
    else
      var p := ProcessData(d.cipher, item.body);
      Some(Decoded(d.(cipher := p.cipher), p.output))
  }

  function AcceptAll(d: Decoder, items: seq<Item>): Option<Decoded>
    decreases items
  {
    if items == [] then Some(Decoded(d, [])) else
      var r := Accept(d, items[0]);
      if r.None? then None else
        var rest := AcceptAll(r.value.decoder, items[1..]);
        if rest.None? then None else Some(Decoded(rest.value.decoder, r.value.output + rest.value.output))
  }

  lemma AcceptAllFirst(d: Decoder, item: Item, items: seq<Item>)
    ensures AcceptAll(d, [item] + items) ==
      var r := Accept(d, item);
      if r.None? then None else
        var rest := AcceptAll(r.value.decoder, items);
        if rest.None? then None else Some(Decoded(rest.value.decoder, r.value.output + rest.value.output))
  {
    hide Accept;
    assert ([item] + items)[1..] == items;
  }

  lemma {:induction false} AcceptAllAppend(d: Decoder, a: seq<Item>, b: seq<Item>)
    ensures AcceptAll(d, a + b) ==
      var r := AcceptAll(d, a);
      if r.None? then None else
        var rest := AcceptAll(r.value.decoder, b);
        if rest.None? then None else Some(Decoded(rest.value.decoder, r.value.output + rest.value.output))
    decreases a
  {
    hide Accept;
    if a == [] {
      assert a + b == b;
      assert AcceptAll(d, b).Some? ==> [] + AcceptAll(d, b).value.output == AcceptAll(d, b).value.output;
    } else {
      assert (a + b)[0] == a[0] && (a + b)[1..] == a[1..] + b;
      var r := Accept(d, a[0]);
      if r.Some? {
        AcceptAllAppend(r.value.decoder, a[1..], b);
        var mid := AcceptAll(r.value.decoder, a[1..]);
        if mid.Some? {
          var end := AcceptAll(mid.value.decoder, b);
          if end.Some? {
            assert (r.value.output + mid.value.output) + end.value.output
                == r.value.output + (mid.value.output + end.value.output);
          }
        }
      }
    }
  }

  /** Packets taken in sequence only ever add to the released data. */
  lemma AcceptedPrefix(d: Decoder, items: seq<Item>, k: nat)
    requires k <= |items| && AcceptAll(d, items).Some?
    ensures AcceptAll(d, items[..k]).Some?
    ensures AcceptAll(d, items[..k]).value.output <= AcceptAll(d, items).value.output
  {
    hide AcceptAll;
    AcceptAllAppend(d, items[..k], items[k..]);
    assert items == items[..k] + items[k..];
  }

  /** Between packets a live reassembly buffer is always shorter than the length it waits for. */
  ghost predicate AwaitsMore(d: Decoder) {
    d.buffer.Some? ==> |d.buffer.value| < d.expected
  }

  lemma AcceptAwaitsMore(d: Decoder, item: Item)
    requires AwaitsMore(d) && Accept(d, item).Some?
    ensures AwaitsMore(Accept(d, item).value.decoder)
    ensures !item.isFragment ==> var d' := Accept(d, item).value.decoder; d'.buffer == d.buffer && d'.expected == d.expected
  {
  }

  // ----- Round trips -----------------------------------------------------------------------

  function Idle(c: Option<Cipher>): Decoder {
    Decoder(c, None, 0)
  }

  /** What the receiving application sees of one message: the message itself, except that an
      unencrypted one that looks like a bundle is taken apart. */
  function Surfaced(c: Option<Cipher>, message: bytes): seq<bytes> {
    if c.None? && IsBundle(message) then Chunks(message[2..]) else [message]
  }

  lemma {:induction false} DecryptAllPlain(chunks: seq<bytes>)
    ensures DecryptAll(None, chunks) == Plain(None, chunks)
  {
    if chunks != [] { DecryptAllPlain(chunks[1..]); }
  }

  /** One unit through encryption, padding, pad stripping and decryption: the plain text comes back,
      the two cipher states agree afterwards, and an encrypted unit is never taken for a bundle. */
  lemma UnitRoundTrip(c: Option<Cipher>, message: bytes)
    requires message != []
    ensures c.Some? ==> !IsBundle(WireUnit(c, message))
    ensures ProcessData(c, WireUnit(c, message)) == Plain(Advance(c, |message|), Surfaced(c, message))
  {
    hide After, KeyByte, Xor, Increment, Chunks;
    if c.None? {
      DecryptAllPlain(if IsBundle(message) then Chunks(message[2..]) else [message]);
    } else {
      var unit := WireUnit(c, message);
      var cipherText := Transform(c.value, message);
      assert Unpad(c, unit) == cipherText;
      TransformIsSymmetric(c.value, message);
      assert DecryptAll(c, [unit]) == Plain(Advance(c, |message|), [message]);
    }
  }

  lemma FirstPiece(maxChunk: nat, unit: bytes, from: nat) returns (to: nat)
    requires maxChunk > 0 && from < |unit|
    ensures from < to <= |unit|
    ensures Pieces(maxChunk, unit[from..]) == [Item(true, unit[from..to])] + Pieces(maxChunk, unit[to..])
  {
    to := from + Min(|unit| - from, maxChunk);
    assert unit[from..][..to - from] == unit[from..to];
    assert unit[from..][to - from..] == unit[to..];
  }

  lemma AcceptPiece(d: Decoder, unit: bytes, from: nat, to: nat)
    requires from < to <= |unit| && d.buffer == Some(unit[..from]) && d.expected == |unit|
    ensures var p := ProcessData(d.cipher, unit);
            Accept(d, Item(true, unit[from..to])) ==
              (if to < |unit| then Some(Decoded(d.(buffer := Some(unit[..to])), [])) else Some(Decoded(Idle(p.cipher), p.output)))
  {
    hide ProcessData;
    assert unit[..from] + unit[from..to] == unit[..to];
    assert unit[..|unit|] == unit;
  }

  /** The first `k` fragments after a master fragment: nothing is released before the last one. */
  lemma {:induction false} PiecesReassemble(d: Decoder, maxChunk: nat, unit: bytes, from: nat, k: nat)
    requires maxChunk > 0 && from < |unit|
    requires d.buffer == Some(unit[..from]) && d.expected == |unit|
    requires k <= |Pieces(maxChunk, unit[from..])|
    ensures var pieces, p := Pieces(maxChunk, unit[from..]), ProcessData(d.cipher, unit);
            AcceptAll(d, pieces[..k]).Some? &&
            var r := AcceptAll(d, pieces[..k]).value;
            if k < |pieces| then r.output == [] && r.decoder.buffer.Some?
            else r == Decoded(Idle(p.cipher), p.output)
    decreases |unit| - from
  {
    hide ProcessData, Pieces, Accept;
    var to := FirstPiece(maxChunk, unit, from);
    if k > 0 {
      hide AcceptAll;
      var rest := Pieces(maxChunk, unit[to..]);
      AcceptPiece(d, unit, from, to);
      AcceptAllFirst(d, Item(true, unit[from..to]), rest[..k - 1]);
      assert Pieces(maxChunk, unit[from..])[..k] == [Item(true, unit[from..to])] + rest[..k - 1];
      if to < |unit| {
        PiecesReassemble(d.(buffer := Some(unit[..to])), maxChunk, unit, to, k - 1);
      } else {
        NothingLeft(Idle(ProcessData(d.cipher, unit).cipher), maxChunk, unit[to..]);
      }
    }
  }

  lemma NothingLeft(d: Decoder, maxChunk: nat, rest: bytes)
    requires maxChunk > 0 && rest == []
    ensures Pieces(maxChunk, rest) == [] && AcceptAll(d, []) == Some(Decoded(d, []))
  {
  }

  /** The packets of a unit fit the maximum of two bytes for the sequence and the body, and all but the last
      use it up. */
  lemma FragmentsFit(maxDataLength: nat, unit: bytes)
    requires maxDataLength >= 6
    ensures var items := Fragments(maxDataLength, unit);
            && |items| >= 1
            && (forall k | 0 <= k < |items| :: 2 + |items[k].body| <= maxDataLength && (unit != [] ==> items[k].body != []))
            && (forall k | 0 <= k < |items| - 1 :: 2 + |items[k].body| == maxDataLength)
  {
    if |unit| + 2 > maxDataLength { PiecesFit(maxDataLength - 2, unit[maxDataLength - 6..]); }
  }

  lemma {:induction false} PiecesFit(maxChunk: nat, rest: bytes)
    requires maxChunk > 0
    ensures var items := Pieces(maxChunk, rest);
            && (items == [] <==> rest == [])
            && (forall k | 0 <= k < |items| :: 1 <= |items[k].body| <= maxChunk)
            && (forall k | 0 <= k < |items| - 1 :: |items[k].body| == maxChunk)
    decreases |rest|
  {
    if rest != [] { PiecesFit(maxChunk, rest[Min(|rest|, maxChunk)..]); }
  }

  /** Any unit is reproduced at exactly the last of its packets. */
  lemma FragmentRoundTrip(c: Option<Cipher>, maxDataLength: nat, unit: bytes, k: nat)
    requires maxDataLength >= 6 && LengthFits(maxDataLength, unit)
    requires k <= |Fragments(maxDataLength, unit)|
    ensures var items, p := Fragments(maxDataLength, unit), ProcessData(c, unit);
            AcceptAll(Idle(c), items[..k]).Some? &&
            var r := AcceptAll(Idle(c), items[..k]).value;
            if k < |items| then r.output == [] else r == Decoded(Idle(p.cipher), p.output)
  {
    hide ProcessData, Pieces;
    var items := Fragments(maxDataLength, unit);
    if |unit| + 2 <= maxDataLength {
      if k == 1 { assert items[..k] == items; }
    } else if k > 0 {
      var from := maxDataLength - 6;
      var d := Decoder(c, Some(unit[..from]), |unit|);
      AcceptMaster(c, unit, from);
      assert items[..k] == [items[0]] + items[1..][..k - 1];
      assert items[1..] == Pieces(maxDataLength - 2, unit[from..]);
      hide AcceptAll, Accept;
      AcceptAllFirst(Idle(c), items[0], items[1..][..k - 1]);
      PiecesReassemble(d, maxDataLength - 2, unit, from, k - 1);
    }
  }

  lemma AcceptMaster(c: Option<Cipher>, unit: bytes, from: nat)
    requires from < |unit| < 0x1_0000_0000
    ensures Accept(Idle(c), Item(true, U32(|unit|) + unit[..from])) == Some(Decoded(Decoder(c, Some(unit[..from]), |unit|), []))
  {
    hide ProcessData, U32;
    var body := U32(|unit|) + unit[..from];
    U32Truncates(|unit|);
    assert body[..4] == U32(|unit|) && body[4..] == unit[..from];
    ReadU32Prefix(U32(|unit|), unit[..from]);
  }

  /** The cipher and the packets after a list of messages. */
  datatype Encoding = Encoding(cipher: Option<Cipher>, items: seq<Item>)

  function EncodeMessage(c: Option<Cipher>, maxDataLength: nat, message: bytes): Encoding
    requires maxDataLength >= 6
  {
    if message == [] then Encoding(c, [])
    else Encoding(Advance(c, |message|), Fragments(maxDataLength, WireUnit(c, message)))
  }

  function EncodeAll(c: Option<Cipher>, maxDataLength: nat, messages: seq<bytes>): Encoding
    requires maxDataLength >= 6
  {
    if messages == [] then Encoding(c, []) else
      var before := EncodeAll(c, maxDataLength, messages[..|messages| - 1]);
      var last := EncodeMessage(before.cipher, maxDataLength, messages[|messages| - 1]);
      Encoding(last.cipher, before.items + last.items)
  }

  function SurfacedAll(c: Option<Cipher>, messages: seq<bytes>): seq<bytes> {
    if messages == [] then [] else
      SurfacedAll(c, messages[..|messages| - 1]) + Surfaced(c, messages[|messages| - 1])
  }

  ghost predicate AllFit(c: Option<Cipher>, maxDataLength: nat, messages: seq<bytes>)
    requires maxDataLength >= 6
  {
    forall k | 0 <= k < |messages| ::
      && messages[k] != []
      && LengthFits(maxDataLength, WireUnit(EncodeAll(c, maxDataLength, messages[..k]).cipher, messages[k]))
  }

  /** Every list of messages, encrypted or not, through encryption, fragmentation, reassembly and
      decryption: they surface in order, and both cipher states are equal at the end. */
  lemma {:induction false} StreamRoundTrip(c: Option<Cipher>, maxDataLength: nat, messages: seq<bytes>)
    requires maxDataLength >= 6 && AllFit(c, maxDataLength, messages)
    ensures var e := EncodeAll(c, maxDataLength, messages);
            AcceptAll(Idle(c), e.items) == Some(Decoded(Idle(e.cipher), SurfacedAll(c, messages)))
    ensures EncodeAll(c, maxDataLength, messages).cipher.Some? == c.Some?
  {
    hide Accept, ProcessData, Fragments, WireUnit, Surfaced, LengthFits;
    if messages != [] {
      hide AcceptAll, Advance;
      var n := |messages| - 1;
      assert forall k | 0 <= k < n :: messages[..n][..k] == messages[..k];
      StreamRoundTrip(c, maxDataLength, messages[..n]);
      var before := EncodeAll(c, maxDataLength, messages[..n]);
      MessageRoundTrip(before.cipher, maxDataLength, messages[n]);
      AcceptAllAppend(Idle(c), before.items, EncodeMessage(before.cipher, maxDataLength, messages[n]).items);
      SurfacedDependsOnEncryption(c, before.cipher, messages[n]);
    }
  }

  /** The packets of one message, from an idle decoder to an idle decoder. */
  lemma MessageRoundTrip(c: Option<Cipher>, maxDataLength: nat, message: bytes)
    requires maxDataLength >= 6 && message != [] && LengthFits(maxDataLength, WireUnit(c, message))
    ensures var e := EncodeMessage(c, maxDataLength, message);
            && AcceptAll(Idle(c), e.items) == Some(Decoded(Idle(e.cipher), Surfaced(c, message)))
            && e.cipher.Some? == c.Some?
  {
    hide AcceptAll, ProcessData, Fragments, WireUnit, Surfaced, LengthFits;
    var items := Fragments(maxDataLength, WireUnit(c, message));
    UnitRoundTrip(c, message);
    FragmentRoundTrip(c, maxDataLength, WireUnit(c, message), |items|);
    assert items[..|items|] == items;
  }

  lemma SurfacedDependsOnEncryption(c: Option<Cipher>, c': Option<Cipher>, message: bytes)
    requires c.Some? == c'.Some?
    ensures Surfaced(c, message) == Surfaced(c', message)
  {
  }

  // ----- Exactly when messages come back unchanged -------------------------------------------

  function TotalLength(parts: seq<bytes>): nat {
    if parts == [] then 0 else |parts[0]| + TotalLength(parts[1..])
  }

  lemma {:induction false} TotalLengthAppend(a: seq<bytes>, b: seq<bytes>)
    ensures TotalLength(a + b) == TotalLength(a) + TotalLength(b)
  {
    if a == [] {
      assert a + b == b;
    } else {
      assert (a + b)[1..] == a[1..] + b;
      TotalLengthAppend(a[1..], b);
    }
  }

  lemma {:induction false} ChunksAreShorter(body: bytes)
    ensures TotalLength(Chunks(body)) <= |body|
    decreases |body|
  {
    var p := DecodeDataBundle(body);
    if p.Some? && p.value.size + p.value.value <= |body| {
      ChunksAreShorter(body[p.value.size + p.value.value..]);
    }
  }

  /** Encrypted, or none of the messages is longer than two bytes and starts with 00 19. */
  ghost predicate Intact(c: Option<Cipher>, messages: seq<bytes>) {
    c.Some? || forall k | 0 <= k < |messages| :: |messages[k]| <= 2 || messages[k][0] != 0x00 || messages[k][1] != 0x19
  }

  lemma {:induction false} SurfacedLength(c: Option<Cipher>, messages: seq<bytes>)
    ensures TotalLength(SurfacedAll(c, messages)) <= TotalLength(messages)
    ensures Intact(c, messages) ==> SurfacedAll(c, messages) == messages
    ensures !Intact(c, messages) ==> TotalLength(SurfacedAll(c, messages)) < TotalLength(messages)
  {
    hide Surfaced, TotalLength;
    if messages != [] {
      var n := |messages| - 1;
      var last := messages[n];
      SurfacedLength(c, messages[..n]);
      assert messages == messages[..n] + [last];
      TotalLengthAppend(messages[..n], [last]);
      TotalLengthAppend(SurfacedAll(c, messages[..n]), Surfaced(c, last));
      SurfacedOne(c, last);
    }
  }

  lemma SurfacedOne(c: Option<Cipher>, message: bytes)
    ensures TotalLength([message]) == |message|
    ensures if c.Some? || |message| <= 2 || message[0] != 0x00 || message[1] != 0x19 then Surfaced(c, message) == [message]
            else TotalLength(Surfaced(c, message)) < |message|
  {
    hide Chunks;
    if IsBundle(message) { ChunksAreShorter(message[2..]); }
  }

  /** No shorter unit is read as the message: an encrypted one is padded only where the pad is needed, or
      when the message is a single byte. */
  lemma UnitIsShortest(c: Option<Cipher>, message: bytes, unit: bytes)
    requires message != [] && ProcessData(c, unit).output == [message]
    ensures |unit| >= |WireUnit(c, message)| || |message| == 1
  {
    hide Transform, Chunks, TotalLength;
    var chunks := if IsBundle(unit) then Chunks(unit[2..]) else [unit];
    assert DecryptAll(c, chunks).output == [message];
    DecryptedCount(c, chunks);
    assert DecryptAll(c, chunks).output[0] == Decrypt(c, chunks[0]);
    if IsBundle(unit) {
      ChunksAreShorter(unit[2..]);
      SurfacedOne(c, chunks[0]);
      assert chunks == [chunks[0]];
    } else if c.Some? {
      TransformIsSymmetric(c.value, Unpad(c, unit));
    }
  }

  /** Decryption strips one leading zero, but never all there is. */
  lemma StripsOneZero(c: Option<Cipher>, unit: bytes)
    requires c.Some? && unit != [] && !IsBundle(unit)
    ensures var output := ProcessData(c, unit).output;
            && |output| == 1
            && |output[0]| == |unit| - if unit[0] == 0 && |unit| > 1 then 1 else 0
  {
    hide Transform;
    DecryptedCount(c, [unit]);
    assert DecryptAll(c, [unit]).output[0] == Decrypt(c, unit);
  }

  lemma {:induction false} DecryptedCount(c: Option<Cipher>, chunks: seq<bytes>)
    ensures |DecryptAll(c, chunks).output| == |chunks|
    decreases chunks
  {
    if chunks != [] { DecryptedCount(Advance(c, |Unpad(c, chunks[0])|), chunks[1..]); }
  }

  /** Messages surface unchanged exactly when the stream is encrypted or none of them is longer than
      two bytes and starts with the multi-data indicator. */
  lemma SurfacedIntactIff(c: Option<Cipher>, messages: seq<bytes>)
    ensures SurfacedAll(c, messages) == messages <==> Intact(c, messages)
  {
    SurfacedLength(c, messages);
  }

  /** The chunks of a data bundle as its sender writes them. */
  function Bundle(chunks: seq<bytes>): bytes {
    if chunks == [] then [] else EncodeDataBundle(|chunks[0]|) + chunks[0] + Bundle(chunks[1..])
  }

  /** A bundle built by any sender comes apart into its chunks, whatever follows them. */
  lemma {:induction false} BundleRoundTrip(chunks: seq<bytes>, tail: bytes)
    requires forall k | 0 <= k < |chunks| :: |chunks[k]| < 0x1_0000_0000
    ensures Chunks(Bundle(chunks) + tail) == chunks + Chunks(tail)
  {
    hide Chunks, EncodeDataBundle;
    if chunks == [] {
      assert Bundle(chunks) + tail == tail;
    } else {
      var head, rest := chunks[0], Bundle(chunks[1..]) + tail;
      assert Bundle(chunks) + tail == EncodeDataBundle(|head|) + (head + rest);
      FirstChunk(head, rest);
      BundleRoundTrip(chunks[1..], tail);
    }
  }

  lemma FirstChunk(head: bytes, rest: bytes)
    requires |head| < 0x1_0000_0000
    ensures Chunks(EncodeDataBundle(|head|) + (head + rest)) == [head] + Chunks(rest)
  {
    hide EncodeDataBundle, DecodeDataBundle;
    DataBundleRoundTrip(|head|, head + rest);
    var body, size := EncodeDataBundle(|head|) + (head + rest), DataBundleSize(|head|);
    assert body[size..size + |head|] == head;
    assert body[size + |head|..] == rest;
  }

  /** What is no chunk, because its length is malformed or runs past the end, ends the bundle. */
  lemma MalformedTail(tail: bytes)
    requires var p := DecodeDataBundle(tail); p.None? || p.value.size + p.value.value > |tail|
    ensures Chunks(tail) == []
  {
  }

  /** The units of messages that are encrypted one after the other. */
  function Units(c: Option<Cipher>, messages: seq<bytes>): seq<bytes>
    requires forall k | 0 <= k < |messages| :: messages[k] != []
    decreases messages
  {
    if messages == [] then [] else [WireUnit(c, messages[0])] + Units(Advance(c, |messages[0]|), messages[1..])
  }

  /** A bundle of units comes back as the messages, its cipher advanced by all of them. */
  lemma UnitBundleRoundTrip(c: Option<Cipher>, messages: seq<bytes>)
    requires messages != [] && forall k | 0 <= k < |messages| :: 0 < |messages[k]| < 0xFFFF_FFFF
    ensures ProcessData(c, [0x00, 0x19] + Bundle(Units(c, messages))) == Plain(Advance(c, TotalLength(messages)), messages)
  {
    hide DecryptAll, Units, Chunks, TotalLength;
    var body := Bundle(Units(c, messages));
    var data := [0x00, 0x19] + body;
    UnitsDecrypt(c, messages);
    BundleRoundTrip(Units(c, messages), []);
    NoChunks();
    assert body + [] == body && Units(c, messages) + [] == Units(c, messages);
    assert Units(c, messages) != [] && body != [] by { BundleIsLonger(Units(c, messages)); }
    assert data[..2] == [0x00, 0x19] && data[2..] == body;
  }

  lemma NoChunks()
    ensures Chunks([]) == []
  {
  }

  lemma BundleIsLonger(chunks: seq<bytes>)
    ensures chunks != [] ==> Bundle(chunks) != []
  {
  }

  lemma {:induction false} UnitsDecrypt(c: Option<Cipher>, messages: seq<bytes>)
    requires forall k | 0 <= k < |messages| :: 0 < |messages[k]| < 0xFFFF_FFFF
    ensures var units := Units(c, messages);
            && |units| == |messages| && (forall k | 0 <= k < |units| :: |units[k]| < 0x1_0000_0000)
            && DecryptAll(c, units) == Plain(Advance(c, TotalLength(messages)), messages)
    decreases messages
  {
    hide After, Transform;
    if messages == [] {
      NoAdvance(c);
    } else {
      var head := |messages[0]|;
      UnitsDecrypt(Advance(c, head), messages[1..]);
      UnpaddedUnit(c, messages[0]);
      assert Units(c, messages)[1..] == Units(Advance(c, head), messages[1..]);
      AdvanceComposes(c, head, TotalLength(messages[1..]));
    }
  }

  lemma UnpaddedUnit(c: Option<Cipher>, message: bytes)
    requires message != []
    ensures var unit := WireUnit(c, message);
            |unit| <= |message| + 1 && |Unpad(c, unit)| == |message| && Decrypt(c, unit) == message
  {
    hide Transform;
    if c.Some? { TransformIsSymmetric(c.value, message); }
  }

  lemma NoAdvance(c: Option<Cipher>)
    ensures Advance(c, 0) == c
  {
  }

  lemma AdvanceComposes(c: Option<Cipher>, m: nat, n: nat)
    ensures Advance(Advance(c, m), n) == Advance(c, m + n)
  {
    hide After;
    if c.Some? { AfterComposes(c.value, m, n); }
  }
}
