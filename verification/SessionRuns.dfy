/** Whole runs of a session (src/session.rs): any calls in any order. The one way to leave the range that
    the code's arithmetic is made for is a session response with a CRC length above four; from there on
    the code panics where it has to frame or check a packet. A call in which it would is passed over. */
module SessionRuns {
  import opened Bytes
  import Protocol
  import opened SessionTrace
  import opened SessionSteps
  import opened SessionLifecycle
  import opened Session

  datatype SessionCall =
    | Incoming(datagram: bytes, random: nat, now: nat)
    | Ticking(now: nat)
    | Enqueueing(data: bytes, channel: Channel)
    | Terminating(reason: Reason, notifyRemote: bool, now: nat)
    | Asking(random: nat)
    | Taking

  ghost function Apply(self: Self, v: View, call: SessionCall): (w: View)
    requires AtRest(self, v)
    ensures AtRest(self, w) && Forward(v, w)
  {
    CallKeeps(self, v, call);
    Called(self, v, call)
  }

  /** The code gets through a call. */
  predicate CanCall(self: Self, v: View, call: SessionCall)
    requires Four(v.channels)
  {
    match call
    case Incoming(datagram, _, now) => CanTakeIn(self, v, datagram, now)
    case Ticking(now) => CanTick(self, v, now)
    case Enqueueing(data, channel) => CanEnqueue(v, data, channel)
    case Terminating(reason, notifyRemote, now) => CanEnd(v, Ending(reason, notifyRemote, false), now)
    case _ => true
  }

  function Called(self: Self, v: View, call: SessionCall): View
    requires Sized(v.params) && Four(v.channels) && OutputsOk(v.channels.outputs) && AllFlushed(v.channels)
  {
    if !CanCall(self, v, call) then v else
      match call
      case Incoming(datagram, random, now) => TakeIn(self, v, datagram, random, now)
      case Ticking(now) => Tick(self, v, now)
      case Enqueueing(data, channel) => Enqueue(self, v, data, channel)
      case Terminating(reason, notifyRemote, now) => End(self, v, Ending(reason, notifyRemote, false), now)
      case Asking(random) => Ask(self, v, random)
      case Taking => v
  }

  /** As long as the CRC length is one of 0..4 it gets through all. */
  lemma UsableCanCall(self: Self, v: View, call: SessionCall)
    requires Four(v.channels) && Usable(v.params)
    ensures CanCall(self, v, call)
  {
  }

  /** How a call ends a session, if it does. */
  function CallVerdict(self: Self, v: View, call: SessionCall): Option<Ending>
    requires Sized(v.params) && Four(v.channels)
  {
    if v.state == Terminated || !CanCall(self, v, call) then None else
      match call
      case Incoming(datagram, _, now) => DatagramVerdict(self, v, datagram, now)
      case Ticking(now) => if Expired(v, now) then Some(Ending(Timeout, false, false)) else None
      case Terminating(reason, notifyRemote, now) => Some(Ending(reason, notifyRemote, false))
      case _ => None
  }

  lemma CallKeeps(self: Self, v: View, call: SessionCall)
    requires AtRest(self, v)
    ensures AtRest(self, Called(self, v, call)) && Forward(v, Called(self, v, call))
    ensures v.state != Terminated ==>
      var w, e := Called(self, v, call), CallVerdict(self, v, call);
      (w.state == Terminated <==> e.Some?) && (e.Some? ==> EndedBy(self, w, e.value, v.state == Running))
  {
    hide StageOf, Early, TakeIn, Tick, Enqueue, End, Ask, AllFlushed, OutputsOk, CanTakeIn, CanTick, CanEnqueue, CanEnd, EndedBy;
    hide DatagramVerdict, Expired;
    if !CanCall(self, v, call) { return; }
    match call
    case Incoming(datagram, random, now) => TakeInKeeps(self, v, datagram, random, now);
    case Ticking(now) => TickKeeps(self, v, now);
    case Enqueueing(data, channel) => EnqueueKeeps(self, v, data, channel);
    case Terminating(reason, notifyRemote, now) => EndKeeps(self, v, Ending(reason, notifyRemote, false), now);
    case Asking(random) => AskKeeps(self, v, random);
    case Taking =>
  }

  ghost function Run(self: Self, v: View, calls: seq<SessionCall>): (w: View)
    requires AtRest(self, v)
    ensures AtRest(self, w)
  {
    if calls == [] then v else Apply(self, Run(self, v, calls[..|calls| - 1]), calls[|calls| - 1])
  }

  /** States only move forward, what was done stays done, and from the moment the session has ended nothing
      is sent, received, reported or handed to a channel any more. */
  lemma {:induction false} RunsGoForward(self: Self, v: View, calls: seq<SessionCall>)
    requires AtRest(self, v)
    ensures Forward(v, Run(self, v, calls))
  {
    hide AtRest, Called;
    if calls != [] { RunsGoForward(self, v, calls[..|calls| - 1]); }
  }

  /** A run that ends has one call that ended it: before it the session was alive, and the reason and side
      on record, the Closed that is the last act and, where the remote was told, the Disconnect that is the
      last datagram are the ones of that call. */
  lemma {:induction false} TheCallThatEnds(self: Self, v: View, calls: seq<SessionCall>) returns (k: nat)
    requires AtRest(self, v) && v.state != Terminated && Run(self, v, calls).state == Terminated
    ensures k < |calls|
    ensures var before := Run(self, v, calls[..k]);
            var e := CallVerdict(self, before, calls[k]);
            && before.state != Terminated && e.Some?
            && EndedBy(self, Run(self, v, calls), e.value, before.state == Running)
  {
    hide AtRest, Called, CallVerdict, EndedBy;
    var n := |calls| - 1;
    var before := Run(self, v, calls[..n]);
    if before.state == Terminated {
      k := TheCallThatEnds(self, v, calls[..n]);
      assert calls[..n][..k] == calls[..k];
    } else {
      k := n;
      CallKeeps(self, before, calls[n]);
    }
  }

  /** The life of a session, as its application sees it: nothing, then Opened, then Closed, which may come
      without Opened; Closed is the last act of all. */
  lemma LifecycleHolds(self: Self, p: Parameters, start: nat, calls: seq<SessionCall>)
    requires Sized(p)
    ensures AtRest(self, Newborn(p, start))
    ensures var v := Run(self, Newborn(p, start), calls);
            var e := Events(v.trace);
            match v.state
            case Negotiating => e == []
            case Running => e == (if v.opensNext then [] else [Opened])
            case Terminated =>
              && ((|e| == 1 && e[0].Closed?) || (|e| == 2 && e[0] == Opened && e[1].Closed?))
              && v.trace != [] && v.trace[|v.trace| - 1].Emit? && v.trace[|v.trace| - 1].event.Closed?
  {
    assert AtRest(self, Newborn(p, start));
    var v := Run(self, Newborn(p, start), calls);
    hide StageOf, Events, Early, Data, Run;
    EventsOfStage(v.trace);
    if v.state == Terminated { EndedEndsWithClosed(v.trace); }
  }

  // ----- The object --------------------------------------------------------------------------

  method Perform(s: SoeSession, call: SessionCall)
    requires s.Valid() && CanCall(s.Me(), s.Current(), call)
    modifies s
    ensures s.Valid() && s.Current() == Apply(s.Me(), old(s.Current()), call)
  {
    hide StageOf, Early, Datagrams, Data, Events, TakeIn, Tick, Enqueue, End, Ask, AllFlushed, OutputsOk, Timely, Usable, AtRest;
    hide SoeSession.Books, CanTakeIn, CanTick, CanEnqueue, CanEnd;
    match call {
      case Incoming(datagram, random, now) => s.ProcessIncoming(datagram, random, now);
      case Ticking(now) => s.RunTick(now);
      case Enqueueing(data, channel) => var _ := s.EnqueueDataOn(data, channel);
      case Terminating(reason, notifyRemote, now) => s.Terminate(reason, notifyRemote, now);
      case Asking(random) => s.SendSessionRequest(random);
      case Taking =>
        var _ := s.TakeOutgoing();
        var _ := s.TakeReceived();
        var _ := s.TakeEvents();
    }
  }

  /** The code gets through a call once the ones before it are done. */
  ghost predicate GetsThrough(self: Self, v: View, before: seq<SessionCall>, call: SessionCall)
    requires AtRest(self, v)
  {
    CanCall(self, Run(self, v, before), call)
  }

  /** The code gets through all of the calls. */
  ghost predicate Proceeds(self: Self, v: View, calls: seq<SessionCall>)
    requires AtRest(self, v)
  {
    forall k | 0 <= k < |calls| :: GetsThrough(self, v, calls[..k], calls[k])
  }

  /** A session object driven by any calls in any order goes through the run of its view, as far as the
      code gets. */
  method Drive(s: SoeSession, calls: seq<SessionCall>)
    requires s.Valid() && Proceeds(s.Me(), s.Current(), calls)
    modifies s
    ensures s.Valid() && s.Current() == Run(s.Me(), old(s.Current()), calls)
  {
    hide Apply, AtRest, SoeSession.Books, CanCall;
    for k := 0 to |calls|
      invariant s.Valid() && s.Current() == Run(s.Me(), old(s.Current()), calls[..k])
    {
      assert calls[..k + 1][..k] == calls[..k];
      assert GetsThrough(s.Me(), old(s.Current()), calls[..k], calls[k]);
      Perform(s, calls[k]);
    }
    assert calls[..|calls|] == calls;
  }

  // ----- The CRC length of a session response ------------------------------------------------

  /** A session response that is accepted although its CRC length is not one of 0..4. */
  predicate Overlong(self: Self, v: View, datagram: bytes)
    requires Usable(v.params)
  {
    match Protocol.Classify(Framing(self, v.params), v.state == Running, datagram)
    case Contextless(op, body) =>
      var r := ParseResponse(body);
      && self.mode == Client && v.state == Negotiating && op == Protocol.SessionResponse
      && r.Some? && r.value.version == SOE_PROTOCOL_VERSION && r.value.crcLength > 4
    case _ => false
  }

  /** The code can go on framing after a datagram exactly unless it was such a response. */
  lemma UsableUnlessOverlong(self: Self, v: View, datagram: bytes, random: nat, now: nat)
    requires AtRest(self, v) && v.state != Terminated && Usable(v.params)
    ensures Usable(TakeIn(self, v, datagram, random, now).params) <==> !Overlong(self, v, datagram)
  {
    hide AtRest, End, Flush, DealWith, Requested, Protocol.Classify, ParseResponse, AllFlushed;
    assert Four(v.channels) && AllFlushed(v.channels) by { AtRestMeans(self, v); }
    match Protocol.Classify(Framing(self, v.params), v.state == Running, datagram)
    case Contextless(op, body) =>
      ShakeKeepsChannels(self, Heard(v, now), op, body, random, now);
      FlushIsLocal(self, Shake(self, Heard(v, now), op, body, random, now));
      RequestKeepsUsable(self, Heard(v, now), body, random, now);
    case Contextual(op, ch, body) =>
      DealKeepsParams(self, Heard(v, now), op, ch, body, now);
      FlushIsLocal(self, DealWith(self, Heard(v, now), op, ch, body, now));
    case _ =>
  }

  lemma AtRestMeans(self: Self, v: View)
    requires AtRest(self, v)
    ensures Four(v.channels) && OutputsOk(v.channels.outputs) && AllFlushed(v.channels)
  {
  }

  lemma RequestKeepsUsable(self: Self, v: View, body: bytes, random: nat, now: nat)
    requires Four(v.channels) && Usable(v.params)
    ensures Usable(Requested(self, v, body, random, now).params)
  {
    hide End, FrameResponse, ParseRequest;
  }

  /** A call that hands such a response to a session that has not ended. */
  predicate GivesOverlong(self: Self, v: View, call: SessionCall)
    requires Usable(v.params)
  {
    call.Incoming? && v.state != Terminated && Overlong(self, v, call.datagram)
  }

  lemma CallKeepsUsable(self: Self, v: View, call: SessionCall)
    requires AtRest(self, v) && Usable(v.params)
    ensures CanCall(self, v, call)
    ensures Usable(Called(self, v, call).params) <==> !GivesOverlong(self, v, call)
  {
    hide StageOf, Early, TakeIn, Tick, Enqueue, End, Ask, CanTakeIn, CanTick, CanEnqueue, CanEnd, EndedBy, DatagramVerdict, Expired;
    hide AllFlushed, OutputsOk, Overlong;
    UsableCanCall(self, v, call);
    match call
    case Incoming(datagram, random, now) =>
      if v.state == Terminated { TakeInKeeps(self, v, datagram, random, now); } else { UsableUnlessOverlong(self, v, datagram, random, now); }
    case Ticking(now) => TickKeeps(self, v, now);
    case Enqueueing(data, channel) => EnqueueKeeps(self, v, data, channel);
    case Terminating(reason, notifyRemote, now) => EndKeeps(self, v, Ending(reason, notifyRemote, false), now);
    case Asking(random) => AskKeeps(self, v, random);
    case Taking =>
  }

  /** Some call of the run gives the session such a response. */
  ghost predicate MeetsOverlong(self: Self, v: View, calls: seq<SessionCall>)
    requires AtRest(self, v)
  {
    exists k :: 0 <= k < |calls| && var before := Run(self, v, calls[..k]);
      Usable(before.params) && GivesOverlong(self, before, calls[k])
  }

  /** The code gets through every run without such a response. */
  lemma {:induction false} ProceedsUnlessOverlong(self: Self, v: View, calls: seq<SessionCall>)
    requires AtRest(self, v) && Usable(v.params) && !MeetsOverlong(self, v, calls)
    ensures Proceeds(self, v, calls) && Usable(Run(self, v, calls).params)
  {
    hide AtRest, CanCall, GivesOverlong, Usable, MeetsOverlong, Called;
    if calls == [] { return; }
    var n := |calls| - 1;
    FrontMeets(self, v, calls);
    ProceedsUnlessOverlong(self, v, calls[..n]);
    CallKeepsUsable(self, Run(self, v, calls[..n]), calls[n]);
    ProceedsOn(self, v, calls);
  }

  lemma FrontMeets(self: Self, v: View, calls: seq<SessionCall>)
    requires AtRest(self, v) && calls != [] && !MeetsOverlong(self, v, calls)
    ensures var n := |calls| - 1;
            var before := Run(self, v, calls[..n]);
            !MeetsOverlong(self, v, calls[..n]) && (Usable(before.params) ==> !GivesOverlong(self, before, calls[n]))
  {
    hide AtRest, Run, GivesOverlong, Usable;
    assert forall k | 0 <= k < |calls| - 1 :: calls[..|calls| - 1][..k] == calls[..k];
  }

  lemma ProceedsOn(self: Self, v: View, calls: seq<SessionCall>)
    requires AtRest(self, v) && calls != [] && Proceeds(self, v, calls[..|calls| - 1])
    requires GetsThrough(self, v, calls[..|calls| - 1], calls[|calls| - 1])
    ensures Proceeds(self, v, calls)
  {
    hide AtRest, GetsThrough;
    var front := calls[..|calls| - 1];
    assert forall k | 0 <= k < |front| :: front[..k] == calls[..k] && front[k] == calls[k];
  }

  /** So the code of a server gets through every run. */
  lemma ServersProceed(self: Self, v: View, calls: seq<SessionCall>)
    requires self.mode == Server && AtRest(self, v) && Usable(v.params)
    ensures Proceeds(self, v, calls)
  {
    hide AtRest, Run, Usable;
    ProceedsUnlessOverlong(self, v, calls);
  }

  function OverlongResponse(sessionId: nat): bytes {
    U16(0x02) + U32(sessionId) + U32(0) + [5, 0, 0] + U32(512) + U32(3)
  }

  lemma OverlongParts(sessionId: nat)
    ensures var d := OverlongResponse(sessionId);
            && |d| == 21 && ReadU16(d) == 2
            && var r := ParseResponse(d[2..]); r.Some? && r.value.crcLength == 5 && r.value.version == SOE_PROTOCOL_VERSION
  {
    var d := OverlongResponse(sessionId);
    assert d[2..][15..] == U32(3);
    assert d[..2] == U16(0x02) && d[0] == 0 && d[1] == 2;
  }

  /** Such a response: a client that has just asked runs with it, and the place in the four bytes of the
      hash from which the code takes the CRC lies before their beginning. */
  lemma OverlongIsAccepted(self: Self, p: Parameters, random: nat, start: nat, now: nat)
    requires self.mode == Client && Usable(p)
    ensures var v := Ask(self, Newborn(p, start), random);
            var w := TakeIn(self, v, OverlongResponse(random), 0, now);
            Overlong(self, v, OverlongResponse(random)) && w.state == Running && w.params.crcLength == 5 && 4 - w.params.crcLength < 0
  {
    hide OverlongResponse, FrameRequest, FlushAllActs, Flushed, ParseResponse, End, Requested, Protocol.Crc, Protocol.ClassifyUnreliable;
    OverlongParts(random);
    var v, d := Ask(self, Newborn(p, start), random), OverlongResponse(random);
    ShakeKeepsChannels(self, Heard(v, now), Protocol.SessionResponse, d[2..], 0, now);
    FlushIsLocal(self, Shake(self, Heard(v, now), Protocol.SessionResponse, d[2..], 0, now));
  }
}
