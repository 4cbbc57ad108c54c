/** The handshake between a client and a server (src/session.rs, src/packets.rs): what one writes the
    other reads, and both come out with the same settings or, if they speak different protocols, the
    server refuses. */
module Handshake {
  import opened Bytes
  import Protocol
  import opened SessionTrace
  import opened SessionSteps
  import opened SessionLifecycle

  predicate FitsU32(n: nat) {
    n < 0x1_0000_0000
  }

  /** A request is read back with the protocol name up to its first zero byte. */
  lemma RequestRoundTrip(sessionId: nat, p: Parameters, name: bytes)
    requires FitsU32(sessionId) && FitsU32(p.udpLength) && 0 !in name && name + [0] <= p.applicationProtocol + [0]
    ensures var d := FrameRequest(sessionId, p);
            && |d| >= 15 && ReadU16(d) == 0x01
            && ParseRequest(d[2..]) == Some(Request(3, sessionId, p.udpLength, name))
  {
    hide U32, U16, ReadU16, ParseRequest;
    var d := FrameRequest(sessionId, p);
    var tail := p.applicationProtocol + [0];
    var body := U32(3) + U32(sessionId) + U32(p.udpLength) + tail;
    Leading(1, body);
    assert d == U16(1) + body && d[2..] == body;
    ReadRequest(3, sessionId, p.udpLength, tail, name);
  }

  lemma ReadRequest(version: nat, sessionId: nat, udpLength: nat, tail: bytes, name: bytes)
    requires FitsU32(version) && FitsU32(sessionId) && FitsU32(udpLength) && 0 !in name && name + [0] <= tail
    ensures ParseRequest(U32(version) + U32(sessionId) + U32(udpLength) + tail) == Some(Request(version, sessionId, udpLength, name))
  {
    hide U32, ReadU32, TerminatedString;
    var body := U32(version) + U32(sessionId) + U32(udpLength) + tail;
    assert body == U32(version) + (U32(sessionId) + U32(udpLength) + tail);
    assert body[4..] == U32(sessionId) + (U32(udpLength) + tail);
    assert body[8..] == U32(udpLength) + tail && body[12..] == tail;
    Field(version, U32(sessionId) + U32(udpLength) + tail);
    Field(sessionId, U32(udpLength) + tail);
    Field(udpLength, tail);
    NameIs(tail, name);
  }

  lemma Leading(n: nat, rest: bytes)
    requires n < 0x1_0000
    ensures ReadU16(U16(n) + rest) == n
  {
    U16RoundTrip(n, U16(n));
    assert (U16(n) + rest)[0] == U16(n)[0] && (U16(n) + rest)[1] == U16(n)[1];
  }

  lemma Field(n: nat, rest: bytes)
    requires FitsU32(n)
    ensures ReadU32(U32(n) + rest) == n
  {
    U32Truncates(n);
    ReadU32Prefix(U32(n), rest);
  }

  /** There is only one first zero. */
  lemma NameIs(b: bytes, name: bytes)
    requires 0 !in name && name + [0] <= b
    ensures TerminatedString(b) == Some(name)
  {
    assert b[|name|] == 0;
    var found := TerminatedString(b).value;
    assert b[|found|] == (found + [0])[|found|] == 0;
    assert forall k | 0 <= k < |name| :: b[k] == name[k];
    assert forall k | 0 <= k < |found| :: b[k] == (found + [0])[k] == found[k];
    assert |found| == |name|;
    assert found == b[..|found|] == name;
  }

  /** A response is read back field by field. */
  lemma ResponseRoundTrip(sessionId: nat, p: Parameters)
    requires FitsU32(sessionId) && FitsU32(p.crcSeed) && p.crcLength <= 4 && FitsU32(p.udpLength)
    ensures var d := FrameResponse(sessionId, p);
            && |d| == 21 && ReadU16(d) == 0x02
            && ParseResponse(d[2..]) == Some(Response(sessionId, p.crcSeed, p.crcLength, p.compression, p.udpLength, 3))
  {
    hide U32, U16, ReadU16, ParseResponse;
    var d := FrameResponse(sessionId, p);
    var flags: bytes := [p.crcLength, if p.compression then 1 else 0, 0];
    var body := U32(sessionId) + U32(p.crcSeed) + flags + U32(p.udpLength) + U32(3);
    Leading(2, body);
    assert d == U16(2) + body && d[2..] == body;
    ReadResponse(sessionId, p.crcSeed, flags, p.udpLength, 3);
  }

  lemma ReadResponse(sessionId: nat, seed: nat, flags: bytes, udpLength: nat, version: nat)
    requires FitsU32(sessionId) && FitsU32(seed) && |flags| == 3 && FitsU32(udpLength) && FitsU32(version)
    ensures ParseResponse(U32(sessionId) + U32(seed) + flags + U32(udpLength) + U32(version))
         == Some(Response(sessionId, seed, flags[0], flags[1] != 0, udpLength, version))
  {
    hide U32, ReadU32;
    var tail := U32(udpLength) + U32(version);
    var body := U32(sessionId) + U32(seed) + flags + U32(udpLength) + U32(version);
    assert body == U32(sessionId) + (U32(seed) + flags + tail);
    assert body[4..] == U32(seed) + (flags + tail);
    assert body[8] == flags[0] && body[9] == flags[1];
    assert body[11..] == tail && body[15..] == U32(version) + [];
    Field(sessionId, U32(seed) + flags + tail);
    Field(seed, flags + tail);
    Field(udpLength, U32(version));
    Field(version, []);
  }

  // ----- The exchange ------------------------------------------------------------------------

  /** The settings each side ends up with: the CRC seed and length and the compression are the server's. */
  function ClientSettings(pc: Parameters, ps: Parameters, seed: nat): Parameters {
    pc.(remoteUdpLength := ps.udpLength, crcSeed := seed, crcLength := 2, compression := ps.compression)
  }

  function ServerSettings(pc: Parameters, ps: Parameters, seed: nat): Parameters {
    ps.(remoteUdpLength := pc.udpLength, crcSeed := seed, crcLength := 2)
  }

  /** Both ends of a session after the handshake: the server reports it open with the next packet. */
  ghost predicate Agreed(client: View, server: View, pc: Parameters, ps: Parameters, sessionId: nat, seed: nat) {
    && client.state == Running && server.state == Running
    && client.sessionId == sessionId && server.sessionId == sessionId
    && client.params == ClientSettings(pc, ps, seed) && server.params == ServerSettings(pc, ps, seed)
    && client.trace == [Send(FrameRequest(sessionId, pc)), Emit(Opened)] && !client.opensNext
    && server.trace == [Send(FrameResponse(sessionId, server.params))] && server.opensNext
    && client.channels == Unused() && server.channels == Unused()
  }

  function Unused(): ChannelPair {
    ChannelPair([None, None, None, None], [None, None, None, None])
  }

  /** A session with unused channels takes in a datagram. */
  function Heeds(self: Self, v: View, data: bytes, random: nat, now: nat): View
    requires Sized(v.params) && v.channels == Unused() && CanTakeIn(self, v, data, now)
  {
    NothingPending(v.channels);
    TakeIn(self, v, data, random, now)
  }

  lemma NothingPending(c: ChannelPair)
    requires c == Unused()
    ensures Four(c) && AllFlushed(c)
  {
  }

  /** With nothing pending, a handshake packet is all that a session deals with. */
  lemma TakesHandshake(self: Self, v: View, data: bytes, op: Protocol.OpCode, random: nat, now: nat)
    requires Sized(v.params) && v.state == Negotiating && v.channels == Unused() && |data| >= 2
    requires !Protocol.NeedsCrc(Framing(self, v.params), false, data)
    requires Protocol.Classify(Framing(self, v.params), false, data) == Protocol.Contextless(op, data[2..])
    ensures Four(v.channels) && AllFlushed(v.channels)
    ensures CanShake(self, v, op, data[2..], now) && CanTakeIn(self, v, data, now) && CanShake(self, Heard(v, now), op, data[2..], now)
    ensures TakeIn(self, v, data, random, now) == Shake(self, Heard(v, now), op, data[2..], random, now)
  {
    hide StageOf, Early, Shake, HandshakeVerdict, Protocol.Classify, Protocol.NeedsCrc, LastTick;
    IdleLastWords(self, v, now);
    assert AllFlushed(v.channels) && Four(v.channels);
    HeardCanShake(self, v, op, data[2..], now);
    ShakeKeepsChannels(self, Heard(v, now), op, data[2..], random, now);
    IdleFlush(self, Shake(self, Heard(v, now), op, data[2..], random, now));
  }

  /** What the server makes of the request: it answers and runs, or refuses in silence. */
  lemma ServerAnswers(self: Self, p: Parameters, request: bytes, r: Request, random: nat, start: nat, now: nat)
    requires self.mode == Server && Sized(p)
    requires |request| >= 15 && ReadU16(request) == 0x01 && ParseRequest(request[2..]) == Some(r) && r.version == 3
    ensures var v := Newborn(p, start);
            && CanTakeIn(self, v, request, now)
            && var w := Heeds(self, v, request, random, now);
            if r.applicationProtocol == p.applicationProtocol then
              var q := p.(remoteUdpLength := r.udpLength, crcLength := 2, crcSeed := random);
              && w == v.(params := q, sessionId := r.sessionId, state := Running, opensNext := true, heard := now, trace := w.trace)
              && w.trace == [Send(FrameResponse(r.sessionId, q))]
            else w.state == Terminated && w.reason == ProtocolMismatch && Datagrams(w.trace) == []
  {
    hide ParseRequest, FrameResponse, StageOf, Early, CanTakeIn, TakeIn, End, LastWords;
    var v := Newborn(p, start);
    TakesHandshake(self, v, request, Protocol.SessionRequest, random, now);
    if r.applicationProtocol != p.applicationProtocol {
      var renamed := Heard(v, now).(params := p.(remoteUdpLength := r.udpLength), sessionId := r.sessionId);
      EndsSilently(self, renamed, now);
    }
  }

  lemma EndsSilently(self: Self, v: View, now: nat)
    requires v.state == Negotiating && v.channels == Unused() && v.trace == []
    ensures var e := Ending(ProtocolMismatch, true, false);
            && CanEnd(v, e, now) && Four(v.channels)
            && var w := End(self, v, e, now); w.state == Terminated && w.reason == ProtocolMismatch && Datagrams(w.trace) == []
  {
    hide Datagrams, LastWords, LastTick;
    IdleLastWords(self, v, now);
    JustClosed(ProtocolMismatch);
    var w := End(self, v, Ending(ProtocolMismatch, true, false), now);
    assert w.trace == [Emit(Closed(ProtocolMismatch))];
  }

  lemma IdleLastWords(self: Self, v: View, now: nat)
    requires v.channels == Unused()
    ensures AllFlushed(LastTick(v, now)) && Four(v.channels) && LastWords(self, v, now) == v
  {
    assert LastTick(v, now) == v.channels;
    IdleFlush(self, v);
  }

  lemma JustClosed(reason: Reason)
    ensures Datagrams([Emit(Closed(reason))]) == []
  {
    Pushed([], Emit(Closed(reason)));
  }

  /** What a client that has asked makes of the response. */
  lemma ClientOpens(self: Self, v: View, response: bytes, r: Response, random: nat, now: nat)
    requires self.mode == Client && v.state == Negotiating && !v.opensNext && v.channels == Unused() && Sized(v.params)
    requires |response| >= 21 && ReadU16(response) == 0x02 && ParseResponse(response[2..]) == Some(r) && r.version == 3
    ensures CanTakeIn(self, v, response, now)
    ensures Heeds(self, v, response, random, now) == v.(
      params := v.params.(remoteUdpLength := r.udpLength, crcLength := r.crcLength, crcSeed := r.crcSeed, compression := r.compression),
      sessionId := r.sessionId, state := Running, heard := now, trace := v.trace + [Emit(Opened)])
  {
    hide ParseResponse, StageOf, Early, TakeIn, CanTakeIn;
    TakesHandshake(self, v, response, Protocol.SessionResponse, random, now);
    assert Heard(v, now).trace == v.trace;
  }

  /** The whole handshake, from the call that asks to the client's report that the session is open: the one
      datagram of the client makes the server answer with one datagram, and both run with the same session,
      CRC seed and length and compression, each knowing the UDP length of the other. If the server speaks no
      protocol of that name it ends the new session and says nothing. */
  lemma HandshakeAgrees(cs: Self, ss: Self, pc: Parameters, ps: Parameters, sessionId: nat, seed: nat, born: nat, born': nat, now: nat, later: nat, random: nat)
    requires cs.mode == Client && ss.mode == Server && Sized(pc) && Sized(ps)
    requires FitsU32(sessionId) && FitsU32(seed) && 0 !in ps.applicationProtocol
    ensures var asked, newborn := Ask(cs, Newborn(pc, born), sessionId), Newborn(ps, born');
            && |Datagrams(asked.trace)| == 1
            && var request := Datagrams(asked.trace)[0];
            && CanTakeIn(ss, newborn, request, now)
            && var server := Heeds(ss, newborn, request, seed, now);
            if ps.applicationProtocol + [0] <= pc.applicationProtocol + [0] then
              && |Datagrams(server.trace)| == 1
              && var response := Datagrams(server.trace)[0];
              && CanTakeIn(cs, asked, response, later)
              && Agreed(Heeds(cs, asked, response, random, later), server, pc, ps, sessionId, seed)
            else
              server.state == Terminated && server.reason == ProtocolMismatch && Datagrams(server.trace) == []
  {
    hide TakeIn, CanTakeIn, ParseRequest, FrameRequest, FrameResponse, Datagrams, Agreed, TerminatedString, AllFlushed;
    NothingPending(Unused());
    var asked, newborn := Ask(cs, Newborn(pc, born), sessionId), Newborn(ps, born');
    var request := FrameRequest(sessionId, pc);
    assert asked.trace == [Send(request)];
    OneDatagram(request);
    var name := TerminatedString(pc.applicationProtocol + [0]).value;
    ServersName(pc.applicationProtocol, name, ps.applicationProtocol);
    RequestRoundTrip(sessionId, pc, name);
    ServerAnswers(ss, ps, request, Request(3, sessionId, pc.udpLength, name), seed, born', now);
    if name == ps.applicationProtocol {
      OneDatagram(FrameResponse(sessionId, ps.(remoteUdpLength := pc.udpLength, crcLength := 2, crcSeed := seed)));
      AnswerOpens(cs, asked, Heeds(ss, newborn, request, seed, now), pc, ps, sessionId, seed, born, born', now, later, random);
    }
  }

  /** The client opens with the server's answer. */
  lemma AnswerOpens(cs: Self, asked: View, server: View, pc: Parameters, ps: Parameters, sessionId: nat, seed: nat, born: nat, born': nat, now: nat, later: nat, random: nat)
    requires cs.mode == Client && Sized(pc) && Sized(ps) && FitsU32(sessionId) && FitsU32(seed)
    requires asked == Newborn(pc, born).(sessionId := sessionId, trace := asked.trace) && asked.trace == [Send(FrameRequest(sessionId, pc))]
    requires var q := ps.(remoteUdpLength := pc.udpLength, crcLength := 2, crcSeed := seed);
             && server == Newborn(ps, born').(params := q, sessionId := sessionId, state := Running, opensNext := true, heard := now, trace := server.trace)
             && server.trace == [Send(FrameResponse(sessionId, q))]
    ensures var response := FrameResponse(sessionId, server.params);
            && CanTakeIn(cs, asked, response, later)
            && Agreed(Heeds(cs, asked, response, random, later), server, pc, ps, sessionId, seed)
  {
    hide TakeIn, CanTakeIn, ParseResponse, FrameRequest, FrameResponse, Datagrams, Events;
    var response := FrameResponse(sessionId, server.params);
    ResponseRoundTrip(sessionId, server.params);
    ClientOpens(cs, asked, response, Response(sessionId, seed, 2, ps.compression, ps.udpLength, 3), random, later);
  }

  lemma OneDatagram(d: bytes)
    ensures Datagrams([Send(d)]) == [d]
  {
    Pushed([], Send(d));
    assert [] + [Send(d)] == [Send(d)];
  }

  /** The name a server reads is its own exactly if its own and a zero are the beginning. */
  lemma ServersName(sent: bytes, read: bytes, own: bytes)
    requires TerminatedString(sent + [0]) == Some(read) && 0 !in own
    ensures read == own <==> own + [0] <= sent + [0]
  {
    if own + [0] <= sent + [0] { NameIs(sent + [0], own); }
  }

  /** When things happen, and what the client draws at random for a response, which nothing depends on. */
  datatype Times = Times(asked: nat, created: nat, answered: nat, joined: nat, random: nat)

  /** The client asks, the server takes in what it sent, and the client takes in the answer. */
  ghost predicate Exchanged(cs: Self, ss: Self, pc: Parameters, ps: Parameters, sessionId: nat, seed: nat, t: Times, client: View, server: View)
    requires cs.mode == Client && Sized(pc) && Sized(ps)
  {
    var asked, newborn := Ask(cs, Newborn(pc, t.asked), sessionId), Newborn(ps, t.created);
    var requests, answers := Datagrams(asked.trace), Datagrams(server.trace);
    && |requests| == 1 && CanTakeIn(ss, newborn, requests[0], t.answered)
    && server == Heeds(ss, newborn, requests[0], seed, t.answered)
    && |answers| == 1 && CanTakeIn(cs, asked, answers[0], t.joined)
    && client == Heeds(cs, asked, answers[0], t.random, t.joined)
  }

  /** Where that is possible, both agree and are at rest. */
  lemma ExchangeAgrees(cs: Self, ss: Self, pc: Parameters, ps: Parameters, sessionId: nat, seed: nat, t: Times, client: View, server: View)
    requires cs.mode == Client && ss.mode == Server && Sized(pc) && Sized(ps) && FitsU32(sessionId) && FitsU32(seed)
    requires 0 !in ps.applicationProtocol && Exchanged(cs, ss, pc, ps, sessionId, seed, t, client, server)
    ensures Agreed(client, server, pc, ps, sessionId, seed) && AtRest(cs, client) && AtRest(ss, server)
  {
    hide TakeIn, CanTakeIn, Datagrams, AllFlushed, StageOf, DatagramVerdict, EndedBy, Timely;
    HandshakeAgrees(cs, ss, pc, ps, sessionId, seed, t.asked, t.created, t.answered, t.joined, t.random);
    NewbornsRest(cs, pc, t.asked);
    NewbornsRest(ss, ps, t.created);
    AskKeeps(cs, Newborn(pc, t.asked), sessionId);
    var asked := Ask(cs, Newborn(pc, t.asked), sessionId);
    TakeInKeeps(ss, Newborn(ps, t.created), Datagrams(asked.trace)[0], seed, t.answered);
    TakeInKeeps(cs, asked, Datagrams(server.trace)[0], t.random, t.joined);
  }

  lemma NewbornsRest(self: Self, p: Parameters, born: nat)
    requires Sized(p)
    ensures AtRest(self, Newborn(p, born))
  {
  }

  // ----- Refusals ----------------------------------------------------------------------------

  /** A datagram of the handshake that is long enough for its kind. */
  predicate IsHandshake(d: bytes, code: nat, least: nat) {
    |d| >= 2 && |d| >= least && ReadU16(d) == code
  }

  lemma AcceptedRuns(self: Self, v: View, d: bytes, random: nat, now: nat)
    requires AtRest(self, v) && v.state == Negotiating && Usable(v.params)
    ensures IsHandshake(d, 0x01, 15) && HandshakeVerdict(self, v, Protocol.SessionRequest, d[2..]).None? ==>
      TakeIn(self, v, d, random, now).state == Running
    ensures IsHandshake(d, 0x02, 21) && HandshakeVerdict(self, v, Protocol.SessionResponse, d[2..]).None? ==>
      TakeIn(self, v, d, random, now).state == Running
  {
    hide StageOf, OutputsOk, AllFlushed, End, ParseRequest, ParseResponse, Flushed, FlushAllActs, FrameResponse;
    var h := Heard(v, now);
    if IsHandshake(d, 0x01, 15) { ShakeKeepsChannels(self, h, Protocol.SessionRequest, d[2..], random, now); }
    if IsHandshake(d, 0x02, 21) { ShakeKeepsChannels(self, h, Protocol.SessionResponse, d[2..], random, now); }
  }

  /** Which handshake datagrams end a session, for which reason and telling whom; the remote is told only when the
      session was running. All others leave it to go on. */
  lemma HandshakeEnds(self: Self, v: View, d: bytes, random: nat, now: nat)
    requires AtRest(self, v) && v.state != Terminated && Usable(v.params)
    ensures CanTakeIn(self, v, d, now)
    ensures var w, running := TakeIn(self, v, d, random, now), v.state == Running;
            && (IsHandshake(d, 0x01, 15) ==>
                  var r := ParseRequest(d[2..]);
                  if self.mode == Client then EndedBy(self, w, Ending(ConnectingToSelf, false, false), running)
                  else if 0 !in d[14..] then EndedBy(self, w, Ending(CorruptPacket, true, false), running)
                  else if running then EndedBy(self, w, Ending(ConnectError, true, false), running)
                  else if ReadU32(d[2..]) != 3 || r.value.applicationProtocol != v.params.applicationProtocol
                  then EndedBy(self, w, Ending(ProtocolMismatch, true, false), running)
                  else w.state == Running)
            && (IsHandshake(d, 0x02, 21) ==>
                  if self.mode == Server then EndedBy(self, w, Ending(ConnectingToSelf, false, false), running)
                  else if running then EndedBy(self, w, Ending(ConnectError, true, false), running)
                  else if ReadU32(d[17..]) != 3 then EndedBy(self, w, Ending(ProtocolMismatch, true, false), running)
                  else w.state == Running)
            && (IsHandshake(d, 0x1D, 2) ==> EndedBy(self, w, Ending(UnreachableConnection, false, false), running))
  {
    hide StageOf, OutputsOk, AllFlushed, End, EndedBy, TakeIn, Timely, U32, ReadU32, TerminatedString;
    TakeInKeeps(self, v, d, random, now);
    if |d| >= 15 { assert d[2..][12..] == d[14..]; }
    if |d| >= 21 { assert d[2..][15..] == d[17..]; }
    if v.state == Negotiating { AcceptedRuns(self, v, d, random, now); }
  }
}
