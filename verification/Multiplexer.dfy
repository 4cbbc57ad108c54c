/** The session multiplexer (src/socket.rs) with port remaps off and server sessions only: one session
    per remote, created by its session request and removed once it has terminated. Whatever arrives,
    each remote's events follow ((Opened Data*)? Closed)*. */
module Multiplexer {
  import opened Bytes
  import opened Rc4
  import Protocol
  import opened SessionTrace
  import opened SessionSteps
  import opened SessionLifecycle
  import opened Session
  import SessionRuns

  datatype SocketEvent<A> =
    | SessionOpened(remote: A)
    | DataReceived(remote: A, data: ReceivedData)
    | SessionClosed(remote: A, reason: Reason)

  // ----- The event grammar -------------------------------------------------------------------

  datatype RemoteStage = Idle | Active | Wrong

  /** One step of the grammar: data only between Opened and Closed, and no second Opened there. */
  function Follow<A(==)>(s: RemoteStage, e: SocketEvent<A>): RemoteStage {
    match e
    case SessionOpened(_) => if s == Idle then Active else Wrong
    case DataReceived(_, _) => if s == Active then Active else Wrong
    case SessionClosed(_, _) => if s == Wrong then Wrong else Idle
  }

  /** Where the events of one remote have got to. */
  function StageFor<A(==)>(history: seq<SocketEvent<A>>, remote: A): RemoteStage {
    if history == [] then Idle else
      var before, last := StageFor(history[..|history| - 1], remote), history[|history| - 1];
      if last.remote == remote then Follow(before, last) else before
  }

  /** Data is always preceded by an Opened of the same remote with no Closed in between. */
  lemma {:induction false} DataIsInsideSession<A>(history: seq<SocketEvent<A>>, remote: A) returns (start: nat)
    requires StageFor(history, remote) == Active
    ensures start < |history| && history[start] == SessionOpened(remote)
    ensures forall k | start < k < |history| && history[k].remote == remote :: history[k].DataReceived?
  {
    var n := |history| - 1;
    if history[n].remote == remote && history[n].SessionOpened? {
      start := n;
    } else {
      start := DataIsInsideSession(history[..n], remote);
    }
  }

  lemma {:induction false} OtherRemotes<A>(history: seq<SocketEvent<A>>, more: seq<SocketEvent<A>>, remote: A)
    requires forall k | 0 <= k < |more| :: more[k].remote != remote
    ensures StageFor(history + more, remote) == StageFor(history, remote)
    decreases |more|
  {
    if more == [] {
      assert history + more == history;
    } else {
      var n := |more| - 1;
      assert (history + more)[..|history| + n] == history + more[..n];
      OtherRemotes(history, more[..n], remote);
    }
  }

  /** What draining a session reports: that it opened, its data, that it closed. */
  function Drained<A>(remote: A, events: seq<SessionEvent>, data: seq<ReceivedData>): seq<SocketEvent<A>> {
    OpenedEvents(remote, events) + DataEvents(remote, data) + ClosedEvents(remote, events)
  }

  twostate predicate OnlyDrained(s: SoeSession)
    reads s
  {
    s.Current() == old(s.Current())
  }

  /** What the caller was given for one remote. */
  function SentTo<A(==)>(outgoing: seq<(A, bytes)>, remote: A): seq<bytes> {
    if outgoing == [] then [] else
      var last := outgoing[|outgoing| - 1];
      SentTo(outgoing[..|outgoing| - 1], remote) + if last.0 == remote then [last.1] else []
  }

  function About<A(==)>(events: seq<SocketEvent<A>>, remote: A): seq<SocketEvent<A>> {
    if events == [] then [] else
      var last := events[|events| - 1];
      About(events[..|events| - 1], remote) + if last.remote == remote then [last] else []
  }

  lemma {:induction false} SentToAppends<A>(outgoing: seq<(A, bytes)>, to: A, datagrams: seq<bytes>, remote: A)
    ensures SentTo(outgoing + Tagged(to, datagrams), remote)
         == SentTo(outgoing, remote) + if to == remote then datagrams else []
    decreases |datagrams|
  {
    if datagrams == [] {
      assert outgoing + Tagged(to, datagrams) == outgoing;
    } else {
      var n := |datagrams| - 1;
      var before, last := outgoing + Tagged(to, datagrams[..n]), (to, datagrams[n]);
      assert outgoing + Tagged(to, datagrams) == before + [last];
      assert datagrams[..n] + [datagrams[n]] == datagrams;
      hide Tagged;
      SentToAppends(outgoing, to, datagrams[..n], remote);
      assert (before + [last])[..|before|] == before;
    }
  }

  lemma {:induction false} AboutAppends<A>(events: seq<SocketEvent<A>>, more: seq<SocketEvent<A>>, from: A, remote: A)
    requires forall k | 0 <= k < |more| :: more[k].remote == from
    ensures About(events + more, remote) == About(events, remote) + if from == remote then more else []
    decreases |more|
  {
    if more == [] {
      assert events + more == events;
    } else {
      var n := |more| - 1;
      var before, last := events + more[..n], more[n];
      assert events + more == before + [last] && more[..n] + [last] == more;
      AboutAppends(events, more[..n], from, remote);
      assert (before + [last])[..|before|] == before;
    }
  }

  function Tagged<A>(remote: A, datagrams: seq<bytes>): seq<(A, bytes)> {
    seq(|datagrams|, k requires 0 <= k < |datagrams| => (remote, datagrams[k]))
  }

  /** What `longer` has beyond the length of `shorter`. */
  function Beyond<T>(shorter: seq<T>, longer: seq<T>): seq<T> {
    if |shorter| <= |longer| then longer[|shorter|..] else []
  }

  function OpenedEvents<A>(remote: A, events: seq<SessionEvent>): seq<SocketEvent<A>> {
    if events == [] then [] else
      OpenedEvents(remote, events[..|events| - 1]) +
        if events[|events| - 1] == Opened then [SessionOpened(remote)] else []
  }

  function DataEvents<A>(remote: A, data: seq<ReceivedData>): seq<SocketEvent<A>> {
    seq(|data|, k requires 0 <= k < |data| => DataReceived(remote, data[k]))
  }

  function ClosedEvents<A>(remote: A, events: seq<SessionEvent>): seq<SocketEvent<A>> {
    if events == [] then [] else
      var last := events[|events| - 1];
      ClosedEvents(remote, events[..|events| - 1]) + if last.Closed? then [SessionClosed(remote, last.reason)] else []
  }

  lemma {:induction false} DrainedRemotes<A>(remote: A, events: seq<SessionEvent>, data: seq<ReceivedData>)
    ensures forall e | e in Drained(remote, events, data) :: e.remote == remote
  {
    if events != [] {
      var before := events[..|events| - 1];
      DrainedRemotes(remote, before, data);
      assert forall e | e in OpenedEvents(remote, before) :: e in Drained(remote, before, data);
      assert forall e | e in ClosedEvents(remote, before) :: e in Drained(remote, before, data);
    }
  }

  /** The data in a list of events. */
  function Payloads<A>(events: seq<SocketEvent<A>>): seq<ReceivedData> {
    if events == [] then [] else
      var last := events[|events| - 1];
      Payloads(events[..|events| - 1]) + if last.DataReceived? then [last.data] else []
  }

  /** The reasons of the sessions that closed. */
  function Reasons<A>(events: seq<SocketEvent<A>>): seq<Reason> {
    if events == [] then [] else
      var last := events[|events| - 1];
      Reasons(events[..|events| - 1]) + if last.SessionClosed? then [last.reason] else []
  }

  lemma {:induction false} PayloadsAppend<A>(a: seq<SocketEvent<A>>, b: seq<SocketEvent<A>>)
    ensures Payloads(a + b) == Payloads(a) + Payloads(b) && Reasons(a + b) == Reasons(a) + Reasons(b)
    decreases |b|
  {
    if b == [] {
      assert a + b == a;
    } else {
      var n := |b| - 1;
      assert (a + b)[..|a| + n] == a + b[..n];
      PayloadsAppend(a, b[..n]);
    }
  }

  /** The reasons for which a session reported its end. */
  function EndReasons(events: seq<SessionEvent>): seq<Reason> {
    if events == [] then [] else
      var last := events[|events| - 1];
      EndReasons(events[..|events| - 1]) + if last.Closed? then [last.reason] else []
  }

  lemma {:induction false} OpenedHasNoPayload<A>(remote: A, events: seq<SessionEvent>)
    ensures var start: seq<SocketEvent<A>> := OpenedEvents(remote, events); Payloads(start) == [] && Reasons(start) == []
  {
    if events != [] {
      var before, last := events[..|events| - 1], events[|events| - 1];
      OpenedHasNoPayload(remote, before);
      var tail: seq<SocketEvent<A>> := if last == Opened then [SessionOpened(remote)] else [];
      PayloadsAppend(OpenedEvents(remote, before), tail);
      if tail != [] { assert tail[..0] == []; }
    }
  }

  lemma {:induction false} DataIsPayload<A>(remote: A, data: seq<ReceivedData>)
    ensures var events: seq<SocketEvent<A>> := DataEvents(remote, data); Payloads(events) == data && Reasons(events) == []
    decreases |data|
  {
    if data != [] {
      var n := |data| - 1;
      var events: seq<SocketEvent<A>> := DataEvents(remote, data);
      DataIsPayload(remote, data[..n]);
      assert events[..n] == DataEvents(remote, data[..n]);
    }
  }

  lemma {:induction false} ClosedHasReasons<A>(remote: A, events: seq<SessionEvent>)
    ensures var closed: seq<SocketEvent<A>> := ClosedEvents(remote, events);
            Payloads(closed) == [] && Reasons(closed) == EndReasons(events)
  {
    if events != [] {
      var before, last := events[..|events| - 1], events[|events| - 1];
      ClosedHasReasons(remote, before);
      var tail: seq<SocketEvent<A>> := if last.Closed? then [SessionClosed(remote, last.reason)] else [];
      PayloadsAppend(ClosedEvents(remote, before), tail);
      if tail != [] { assert tail[..0] == []; }
    }
  }

  /** The caller is told all data, in the order it was surfaced, and nothing else as data; and the reasons of all
      ends. */
  lemma DrainedTellsAll<A>(remote: A, events: seq<SessionEvent>, data: seq<ReceivedData>)
    ensures Payloads(Drained(remote, events, data)) == data
    ensures Reasons(Drained(remote, events, data)) == EndReasons(events)
  {
    hide Payloads, Reasons, OpenedEvents, DataEvents, ClosedEvents;
    var start: seq<SocketEvent<A>> := OpenedEvents(remote, events);
    OpenedHasNoPayload(remote, events);
    DataIsPayload(remote, data);
    ClosedHasReasons(remote, events);
    PayloadsAppend(start, DataEvents(remote, data));
    PayloadsAppend(start + DataEvents(remote, data), ClosedEvents(remote, events));
  }

  lemma PushedStage<A>(history: seq<SocketEvent<A>>, e: SocketEvent<A>)
    ensures StageFor(history + [e], e.remote) == Follow(StageFor(history, e.remote), e)
  {
    assert (history + [e])[..|history|] == history;
  }

  lemma {:induction false} DataStage<A>(history: seq<SocketEvent<A>>, remote: A, data: seq<ReceivedData>)
    requires data == [] || StageFor(history, remote) == Active
    ensures StageFor(history + DataEvents(remote, data), remote) == StageFor(history, remote)
    decreases |data|
  {
    if data == [] {
      assert history + DataEvents(remote, data) == history;
    } else {
      var n := |data| - 1;
      DataStage(history, remote, data[..n]);
      var before, e := history + DataEvents(remote, data[..n]), DataReceived(remote, data[n]);
      assert history + DataEvents(remote, data) == before + [e];
      PushedStage(before, e);
    }
  }

  /** Where a remote stands when its session is at some stage of its own. */
  function Expected(s: Stage): RemoteStage {
    if s == Open then Active else Idle
  }

  predicate Starts(events: seq<SessionEvent>) {
    events != [] && events[0] == Opened
  }

  predicate Ends(events: seq<SessionEvent>) {
    events != [] && events[|events| - 1].Closed?
  }

  /** The events and data by which a trace grew, told by the stages at its two ends. */
  lemma GrowthOfStages(before: seq<Act>, after: seq<Act>, events: seq<SessionEvent>, data: seq<ReceivedData>)
    requires before <= after && StageOf(after) != Broken && !Early(after)
    requires StageOf(before) == Fresh || StageOf(before) == Open
    requires Events(after) == Events(before) + events && Data(after) == Data(before) + data
    ensures |events| <= 2 && (|events| == 2 ==> events[0] == Opened && events[1].Closed?)
    ensures Starts(events) ==> StageOf(before) == Fresh
    ensures data != [] ==> Starts(events) || StageOf(before) == Open
    ensures StageOf(after) == if Ends(events) then Ended else if Starts(events) then Open else StageOf(before)
  {
    hide StageOf, Early, Events, Data;
    EventsOfStage(before);
    EventsOfStage(after);
    if StageOf(before) == Open { assert Events(after)[0] == Opened; } else { assert Events(after) == events; }
  }

  /** A session that went from one trace to a longer one reports events that fit the grammar. */
  lemma DrainFitsGrammar<A>(history: seq<SocketEvent<A>>, remote: A, before: seq<Act>, after: seq<Act>,
                            events: seq<SessionEvent>, data: seq<ReceivedData>)
    requires before <= after && StageOf(after) != Broken && !Early(after)
    requires StageOf(before) == Fresh || StageOf(before) == Open
    requires Events(after) == Events(before) + events && Data(after) == Data(before) + data
    requires StageFor(history, remote) == Expected(StageOf(before))
    ensures StageFor(history + Drained(remote, events, data), remote) == Expected(StageOf(after))
  {
    hide StageOf, Early, Events, Data, StageFor, OpenedEvents, ClosedEvents, DataEvents;
    GrowthOfStages(before, after, events, data);
    ShortEvents(remote, events);
    var start, closed := OpenedEvents(remote, events), ClosedEvents(remote, events);
    var h1 := history + start;
    var h2 := h1 + DataEvents(remote, data);
    assert history + Drained(remote, events, data) == h2 + closed;
    if start != [] { PushedStage(history, start[0]); } else { assert h1 == history; }
    DataStage(h1, remote, data);
    if closed != [] { PushedStage(h2, closed[0]); } else { assert h2 + closed == h2; }
  }

  lemma ShortEvents<A>(remote: A, events: seq<SessionEvent>)
    requires |events| <= 2 && (|events| == 2 ==> events[0] == Opened && events[1].Closed?)
    ensures OpenedEvents(remote, events) == if Starts(events) then [SessionOpened(remote)] else []
    ensures ClosedEvents(remote, events) == if Ends(events) then [SessionClosed(remote, events[|events| - 1].reason)] else []
  {
    if |events| == 2 { assert events[..1][..0] == []; }
  }

  // ----- The multiplexer ---------------------------------------------------------------------

  class SoeMultiplexer<A(==,!new)> {
    const params: Parameters
    const cipher: Option<Cipher>
    const hash: (nat, bytes) -> nat
    const inflate: bytes -> Option<bytes>
    var sessions: map<A, SoeSession>
    var outgoing: seq<(A, bytes)>
    var events: seq<SocketEvent<A>>
    /** Every event ever reported, and those of them the caller has taken. */
    ghost var history: seq<SocketEvent<A>>
    ghost var taken: seq<SocketEvent<A>>

    /** A session that has nothing pending, with its view as it stands. */
    ghost predicate Ready(remote: A, s: SoeSession, v: View)
      reads `history, s
    {
      && s.Valid() && s.Me() == Self(Server, cipher, hash, inflate) && s.Current() == v && Timely(v) && Usable(v.params)
      && v.state != Terminated && s.outgoing == [] && s.received == [] && s.events == []
      && StageFor(history, remote) == Expected(StageOf(v.trace))
    }

    /** A session between calls: running, drained, without early data, and its remote where it should be. */
    ghost predicate InStep(remote: A, s: SoeSession)
      reads `history, s
    {
      Ready(remote, s, s.Current()) && s.state == Running
    }

    /** No two remotes share a session. */
    ghost predicate Apart(sessions: map<A, SoeSession>) {
      forall a, b | a in sessions && b in sessions && a != b :: sessions[a] != sessions[b]
    }

    ghost predicate Valid()
      reads this, sessions.Values
    {
      OthersInStep(None)
    }

    /** A session that has acted since its view was `before`, and was not drained yet. */
    ghost predicate Acted(remote: A, s: SoeSession, before: View)
      reads `history, s
    {
      && s.Valid() && s.Me() == Self(Server, cipher, hash, inflate) && s.state != Negotiating
      && Timely(s.Current()) && Usable(s.params)
      && before.trace <= s.trace && Live(before.trace)
      && s.takenOutgoing == Datagrams(before.trace) && s.takenEvents == Events(before.trace)
      && s.takenReceived == Data(before.trace)
      && StageFor(history, remote) == Expected(StageOf(before.trace))
    }

    /** All remotes, but for one, are in step. */
    ghost predicate OthersInStep(but: Option<A>)
      reads this, sessions.Values
    {
      && Usable(params) && Apart(sessions) && history == taken + events
      && (forall a | a in sessions && Some(a) != but :: InStep(a, sessions[a]))
      && (forall a | a !in sessions && Some(a) != but :: StageFor(history, a) == Idle)
    }

    /** What a session did between two views, and nothing else, went to the caller: its datagrams with
        its remote, and its events and data in the order of the grammar. */
    twostate predicate Relayed(remote: A, before: View, after: View)
      reads `outgoing, `events
    {
      && outgoing == old(outgoing) + Tagged(remote, Beyond(Datagrams(before.trace), Datagrams(after.trace)))
      && events == old(events) + News(remote, before, after)
    }

    constructor (params: Parameters, cipher: Option<Cipher>, hash: (nat, bytes) -> nat, inflate: bytes -> Option<bytes>)
      requires Usable(params)
      ensures Valid() && sessions == map[] && history == []
    {
      this.params, this.cipher, this.hash, this.inflate := params, cipher, hash, inflate;
      sessions, outgoing, events, history, taken := map[], [], [], [], [];
    }

    method TakeEvents() returns (result: seq<SocketEvent<A>>)
      requires Valid()
      modifies this`events, this`taken
      ensures Valid() && result == old(events) && events == [] && history == old(history) && taken == old(taken) + result
    {
      hide StageFor, Ready;
      result := events;
      taken := taken + events;
      events := [];
    }

    method TakeOutgoing() returns (result: seq<(A, bytes)>)
      requires Valid()
      modifies this`outgoing
      ensures Valid() && result == old(outgoing) && outgoing == []
    {
      result := outgoing;
      outgoing := [];
    }

    /** Moves what a session has pending into the multiplexer's buffers. */
    method DrainInto(remote: A, s: SoeSession, ghost before: View)
      requires Acted(remote, s, before)
      modifies this`outgoing, this`events, this`history, s
      ensures OnlyDrained(s) && Relayed(remote, before, s.Current()) && history == old(history) + News(remote, before, s.Current())
      ensures s.Valid() && (s.state == Running ==> InStep(remote, s))
      ensures s.state == Terminated ==> StageFor(history, remote) == Idle
      ensures forall a | a != remote :: StageFor(history, a) == StageFor(old(history), a)
    {
      hide StageOf, Early, Events, Data, Datagrams, StageFor, Drained, Usable, Tagged, Timely, OutputsOk, AllFlushed;
      var datagrams := s.TakeOutgoing();
      outgoing := outgoing + Tagged(remote, datagrams);
      var sessionEvents := s.TakeEvents();
      var received := s.TakeReceived();
      NotEarly(s.Current());
      Grammar(remote, before.trace, s.trace, sessionEvents, received);
      Report(remote, sessionEvents, received);
    }

    method DrainSession(remote: A, ghost before: View)
      requires remote in sessions && Acted(remote, sessions[remote], before) && OthersInStep(Some(remote))
      modifies this`outgoing, this`events, this`history, sessions[remote]
      ensures OnlyDrained(sessions[remote]) && (sessions[remote].state == Running ==> Valid())
      ensures sessions[remote].state == Terminated ==> StageFor(history, remote) == Idle
      ensures OthersInStep(Some(remote)) && Relayed(remote, before, sessions[remote].Current())
    {
      hide StageOf, Early, Events, Data, Datagrams, StageFor, News, Usable, Tagged, Timely, AtRest, Live, SoeSession.Books;
      DrainInto(remote, sessions[remote], before);
    }

    /** Reporting what a session has pending keeps every remote where its session says. */
    lemma Grammar(remote: A, before: seq<Act>, after: seq<Act>, sessionEvents: seq<SessionEvent>, received: seq<ReceivedData>)
      requires
        && before <= after && StageOf(after) != Broken && !Early(after)
        && (StageOf(before) == Fresh || StageOf(before) == Open)
        && Events(after) == Events(before) + sessionEvents && Data(after) == Data(before) + received
        && StageFor(history, remote) == Expected(StageOf(before))
      ensures var more := Drained(remote, sessionEvents, received);
        && StageFor(history + more, remote) == Expected(StageOf(after))
        && forall a | a != remote :: StageFor(history + more, a) == StageFor(history, a)
    {
      hide StageOf, Early, Events, Data, StageFor, Drained;
      var more := Drained(remote, sessionEvents, received);
      DrainFitsGrammar(history, remote, before, after, sessionEvents, received);
      DrainedRemotes(remote, sessionEvents, received);
      forall a | a != remote
        ensures StageFor(history + more, a) == StageFor(history, a)
      {
        OtherRemotes(history, more, a);
      }
    }

    /** Opened first, then the data, Closed last. */
    method Report(remote: A, sessionEvents: seq<SessionEvent>, received: seq<ReceivedData>)
      modifies this`events, this`history
      ensures events == old(events) + Drained(remote, sessionEvents, received)
      ensures history == old(history) + Drained(remote, sessionEvents, received)
    {
      ReportOpened(remote, sessionEvents);
      ReportData(remote, received);
      ReportClosed(remote, sessionEvents);
      hide OpenedEvents, ClosedEvents, DataEvents;
      assert events == old(events) + Drained(remote, sessionEvents, received);
      history := history + Drained(remote, sessionEvents, received);
    }

    method ReportOpened(remote: A, sessionEvents: seq<SessionEvent>)
      modifies this`events
      ensures events == old(events) + OpenedEvents(remote, sessionEvents)
    {
      for k := 0 to |sessionEvents|
        invariant events == old(events) + OpenedEvents(remote, sessionEvents[..k])
      {
        assert sessionEvents[..k + 1][..k] == sessionEvents[..k];
        if sessionEvents[k] == Opened { events := events + [SessionOpened(remote)]; }
      }
      assert sessionEvents[..|sessionEvents|] == sessionEvents;
    }

    method ReportData(remote: A, received: seq<ReceivedData>)
      modifies this`events
      ensures events == old(events) + DataEvents(remote, received)
    {
      ghost var all := DataEvents(remote, received);
      for k := 0 to |received|
        invariant events == old(events) + all[..k]
      {
        assert all[..k + 1] == all[..k] + [DataReceived(remote, received[k])];
        events := events + [DataReceived(remote, received[k])];
      }
    }

    method ReportClosed(remote: A, sessionEvents: seq<SessionEvent>)
      modifies this`events
      ensures events == old(events) + ClosedEvents(remote, sessionEvents)
    {
      for k := 0 to |sessionEvents|
        invariant events == old(events) + ClosedEvents(remote, sessionEvents[..k])
      {
        assert sessionEvents[..k + 1][..k] == sessionEvents[..k];
        if sessionEvents[k].Closed? { events := events + [SessionClosed(remote, sessionEvents[k].reason)]; }
      }
      assert sessionEvents[..|sessionEvents|] == sessionEvents;
    }

    method RemoveIfTerminated(remote: A)
      modifies this`sessions
      ensures sessions == if remote in old(sessions) && old(sessions[remote]).state == Terminated
                          then old(sessions) - {remote} else old(sessions)
    {
      if remote in sessions && sessions[remote].state == Terminated { sessions := sessions - {remote}; }
    }

    /** A session with nothing pending is about to act. */
    lemma Starting(remote: A, s: SoeSession, before: View)
      requires Ready(remote, s, before)
      ensures AtRest(s.Me(), before) && Live(before.trace) && Four(before.channels) && OutputsOk(before.channels.outputs)
      ensures s.takenOutgoing == Datagrams(before.trace) && s.takenEvents == Events(before.trace)
      ensures s.takenReceived == Data(before.trace)
    {
      hide StageFor;
    }

    /** The session of one remote has acted; everything else is as it was. */
    method Settle(remote: A, ghost before: View)
      requires remote in sessions && Acted(remote, sessions[remote], before) && OthersInStep(Some(remote))
      modifies this`outgoing, this`events, this`history, this`sessions, sessions[remote]
      ensures Valid()
      ensures sessions == if old(sessions[remote].state) == Terminated then old(sessions) - {remote} else old(sessions)
      ensures OnlyDrained(old(sessions[remote])) && Relayed(remote, before, old(sessions[remote].Current()))
    {
      hide StageOf, Early, Events, Data, Datagrams, StageFor, News, Usable, Tagged, Timely, AtRest, Live, SoeSession.Books;
      DrainSession(remote, before);
      RemoveIfTerminated(remote);
    }

    /** A new session for a remote. */
    method CreateSession(remote: A, now: nat)
      requires Valid() && remote !in sessions
      modifies this`sessions
      ensures remote in sessions && fresh(sessions[remote]) && sessions == old(sessions)[remote := sessions[remote]]
      ensures OthersInStep(Some(remote)) && Ready(remote, sessions[remote], Newborn(params, now))
    {
      hide StageOf, Early, Events, Data, Datagrams, StageFor, Timely, AtRest;
      FreshTrace();
      var s := new SoeSession(Server, params, cipher, hash, inflate, now);
      sessions := sessions[remote := s];
    }

    /** A session has taken in a datagram and everything it did was relayed. */
    twostate predicate Handled(remote: A, new s: SoeSession, before: View, datagram: bytes, random: nat, now: nat)
      reads `outgoing, `events, s
    {
      && AtRest(s.Me(), before) && Usable(before.params) && s.Current() == TakeIn(s.Me(), before, datagram, random, now)
      && Relayed(remote, before, s.Current())
    }

    /** A datagram from an unknown remote does nothing unless it is a session request, which gets a
        session of its own. Any other goes to the remote's session; what that does is relayed, and the
        session is dropped exactly when it has ended. */
    method ProcessIncoming(remote: A, datagram: bytes, random: nat, now: nat) returns (ghost s: SoeSession?)
      requires Valid()
      modifies this, sessions.Values
      ensures Valid()
      ensures s == null <==> remote !in old(sessions) && Protocol.ReadOpCode(datagram) != Some(Protocol.SessionRequest)
      ensures s == null ==> unchanged(this)
      ensures s != null ==>
        && (if remote in old(sessions) then s == old(sessions[remote]) else fresh(s))
        && var before := if remote in old(sessions) then old(sessions[remote].Current()) else Newborn(params, now);
           && Handled(remote, s, before, datagram, random, now)
           && sessions == (if s.state == Terminated then old(sessions) - {remote} else old(sessions)[remote := s])
    {
      hide StageOf, Early, Events, Data, Datagrams, StageFor, News, Tagged, TakeIn, Timely, Protocol.ReadOpCode, AllFlushed, OutputsOk;
      hide SoeSession.Books;
      if remote !in sessions {
        if Protocol.ReadOpCode(datagram) != Some(Protocol.SessionRequest) { return null; }
        s := Admit(remote, datagram, random, now);
      } else {
        s := sessions[remote];
        PassOn(remote, datagram, random, now, s.Current());
      }
    }

    /** A session request from an unknown remote, to a session of its own. */
    method Admit(remote: A, datagram: bytes, random: nat, now: nat) returns (ghost s: SoeSession)
      requires Valid() && remote !in sessions && Protocol.ReadOpCode(datagram) == Some(Protocol.SessionRequest)
      modifies this`outgoing, this`events, this`history, this`sessions
      ensures Valid() && fresh(s) && Handled(remote, s, Newborn(params, now), datagram, random, now)
      ensures sessions == if s.state == Terminated then old(sessions) else old(sessions)[remote := s]
    {
      hide StageOf, Early, Events, Data, Datagrams, StageFor, News, Tagged, TakeIn, Timely, Protocol.ReadOpCode, AllFlushed, OutputsOk;
      hide SoeSession.Books, Usable, AtRest;
      CreateSession(remote, now);
      s := sessions[remote];
      PassOn(remote, datagram, random, now, Newborn(params, now));
      assert old(sessions)[remote := s] - {remote} == old(sessions);
    }

    /** Gives a datagram to the session of its remote, which has nothing pending. */
    method PassOn(remote: A, datagram: bytes, random: nat, now: nat, ghost before: View)
      requires remote in sessions && OthersInStep(Some(remote)) && Ready(remote, sessions[remote], before)
      requires before.state == Negotiating ==> Protocol.ReadOpCode(datagram) == Some(Protocol.SessionRequest)
      modifies this`outgoing, this`events, this`history, this`sessions, sessions[remote]
      ensures Valid()
      ensures var s := old(sessions[remote]);
        && Handled(remote, s, before, datagram, random, now)
        && sessions == if s.state == Terminated then old(sessions) - {remote} else old(sessions)
    {
      hide StageOf, Early, Events, Data, Datagrams, StageFor, News, Tagged, Timely, Protocol.ReadOpCode, TakeIn;
      Starting(remote, sessions[remote], before);
      ServersStayUsable(sessions[remote].Me(), before, datagram, random, now);
      TakeInKeeps(sessions[remote].Me(), before, datagram, random, now);
      sessions[remote].ProcessIncoming(datagram, random, now);
      Settle(remote, before);
    }

    /** The remote is told, the application gets Closed, and the session is gone. */
    method Terminate(remote: A, reason: Reason, now: nat)
      requires Valid()
      modifies this, sessions.Values
      ensures Valid() && sessions == old(sessions) - {remote}
      ensures remote !in old(sessions) ==> unchanged(this)
      ensures remote in old(sessions) ==>
        var s, before := old(sessions[remote]), old(sessions[remote].Current());
        && s.Current() == End(s.Me(), before, Ending(reason, true, false), now) && Relayed(remote, before, s.Current())
    {
      hide StageOf, Early, Events, Data, Datagrams, StageFor, News, Tagged, Timely, LastWords, Notice;
      if remote !in sessions { return; }
      ghost var before := sessions[remote].Current();
      Starting(remote, sessions[remote], before);
      EndKeeps(sessions[remote].Me(), before, Ending(reason, true, false), now);
      sessions[remote].Terminate(reason, true, now);
      Settle(remote, before);
    }

    method EnqueueDataOn(remote: A, data: bytes, channel: Channel) returns (queued: bool)
      requires Valid()
      modifies this, sessions.Values
      ensures Valid() && sessions == old(sessions)
      ensures queued <==> remote in sessions && (channel.Reliable? ==> channel.index < 4)
      ensures remote !in sessions ==> unchanged(this)
      ensures remote in sessions ==>
        var s, before := sessions[remote], old(sessions[remote].Current());
        && s.Current() == Enqueue(s.Me(), before, data, channel) && Relayed(remote, before, s.Current())
    {
      hide StageOf, Early, Events, Data, Datagrams, StageFor, News, Tagged, Timely, Enqueue;
      if remote !in sessions { return false; }
      ghost var before := sessions[remote].Current();
      Starting(remote, sessions[remote], before);
      EnqueueKeeps(sessions[remote].Me(), before, data, channel);
      queued := sessions[remote].EnqueueDataOn(data, channel);
      DrainSession(remote, before);
    }

    /** The session of a remote has ticked since its view was `before`, and everything it did was relayed. */
    ghost predicate Swept(remote: A, s: SoeSession, before: View, sent: seq<bytes>, told: seq<SocketEvent<A>>, now: nat)
      reads `outgoing, `events, s
    {
      && AtRest(s.Me(), before) && Usable(before.params) && s.Current() == Tick(s.Me(), before, now)
      && SentTo(outgoing, remote) == sent + Beyond(Datagrams(before.trace), Datagrams(s.trace))
      && About(events, remote) == told + News(remote, before, s.Current())
    }

    ghost predicate Unswept(remote: A, s: SoeSession, before: View, sent: seq<bytes>, told: seq<SocketEvent<A>>)
      reads `outgoing, `events, s
    {
      s.Current() == before && SentTo(outgoing, remote) == sent && About(events, remote) == told
    }

    /** Ticks every session once, in any order, and drops exactly those that have timed out. */
    method RunTick(now: nat)
      requires Valid()
      modifies this, sessions.Values
      ensures Valid()
      ensures forall a | a in old(sessions) ::
        Swept(a, old(sessions)[a], old(sessions[a].Current()), old(SentTo(outgoing, a)), old(About(events, a)), now)
      ensures forall a | a !in old(sessions) :: SentTo(outgoing, a) == old(SentTo(outgoing, a)) && About(events, a) == old(About(events, a))
      ensures forall a :: a in sessions <==> a in old(sessions) && !Expired(old(sessions[a].Current()), now)
      ensures forall a | a in sessions :: sessions[a] == old(sessions)[a]
    {
      hide StageOf, Early, Events, Data, Datagrams, StageFor, SentTo, About, News, Tick, Expired, AtRest, Swept, OthersInStep;
      ghost var all := sessions;
      AreApart();
      ghost var views := map a | a in sessions :: sessions[a].Current();
      ghost var sent, told := outgoing, events;
      var pending := sessions.Keys;
      while pending != {}
        invariant Valid() && Sweeping(all, views, pending, sent, told, now) && Apart(all)
        decreases |pending|
      {
        var remote :| remote in pending;
        SweepOne(remote, all, views, pending, sent, told, now);
        pending := pending - {remote};
      }
    }

    method SweepOne(remote: A, ghost all: map<A, SoeSession>, ghost views: map<A, View>, ghost pending: set<A>,
                    ghost sent: seq<(A, bytes)>, ghost told: seq<SocketEvent<A>>, now: nat)
      requires Valid() && Sweeping(all, views, pending, sent, told, now) && Apart(all) && remote in pending
      modifies this`outgoing, this`events, this`history, this`sessions, all[remote]
      ensures Valid() && Sweeping(all, views, pending - {remote}, sent, told, now)
    {
      hide StageOf, Early, Events, Data, Datagrams, StageFor, SentTo, About, News, Tick, Expired, AtRest, OthersInStep, Usable, Beyond, SoeSession.Current;
      TickOne(remote, now);
    }

    lemma AreApart()
      requires Valid()
      ensures Apart(sessions)
    {
    }

    /** In the middle of a sweep: the sessions that are pending, and those that are not. */
    ghost predicate Sweeping(all: map<A, SoeSession>, views: map<A, View>, pending: set<A>, sent: seq<(A, bytes)>,
                             told: seq<SocketEvent<A>>, now: nat)
      reads `sessions, `outgoing, `events, all.Values
    {
      && pending <= sessions.Keys <= all.Keys == views.Keys && (forall a | a in sessions :: sessions[a] == all[a])
      && (forall a | a in pending :: Unswept(a, all[a], views[a], SentTo(sent, a), About(told, a)))
      && (forall a | a in all && a !in pending :: Swept(a, all[a], views[a], SentTo(sent, a), About(told, a), now))
      && (forall a | a in all && a !in pending :: a in sessions <==> !Expired(views[a], now))
      && (forall a | a !in all :: SentTo(outgoing, a) == SentTo(sent, a) && About(events, a) == About(told, a))
    }

    method TickOne(remote: A, now: nat)
      requires Valid() && remote in sessions
      modifies this`outgoing, this`events, this`history, this`sessions, sessions[remote]
      ensures Valid()
      ensures sessions == if Expired(old(sessions[remote].Current()), now) then old(sessions) - {remote} else old(sessions)
      ensures Swept(remote, old(sessions[remote]), old(sessions[remote].Current()), old(SentTo(outgoing, remote)),
                    old(About(events, remote)), now)
      ensures forall a | a != remote :: SentTo(outgoing, a) == old(SentTo(outgoing, a)) && About(events, a) == old(About(events, a))
    {
      hide StageOf, Early, Events, Data, Datagrams, StageFor, Tagged, Timely, Tick, SentTo, About, Drained, Expired;
      ghost var before, s := sessions[remote].Current(), sessions[remote];
      Starting(remote, s, before);
      TickKeeps(s.Me(), before, now);
      sessions[remote].RunTick(now);
      Settle(remote, before);
      Delivered(remote, before, s.Current(), old(outgoing), old(events));
    }

    /** What was relayed for one remote is what that remote gets, and no other gets anything. */
    lemma Delivered(remote: A, before: View, after: View, sent: seq<(A, bytes)>, told: seq<SocketEvent<A>>)
      ensures var datagrams := Beyond(Datagrams(before.trace), Datagrams(after.trace));
        forall a :: SentTo(sent + Tagged(remote, datagrams), a) == SentTo(sent, a) + if a == remote then datagrams else []
      ensures forall a :: About(told + News(remote, before, after), a)
                       == About(told, a) + if a == remote then News(remote, before, after) else []
    {
      hide Datagrams, Tagged, SentTo, About, Drained;
      var datagrams, news := Beyond(Datagrams(before.trace), Datagrams(after.trace)), News(remote, before, after);
      DrainedRemotes(remote, Beyond(Events(before.trace), Events(after.trace)), Beyond(Data(before.trace), Data(after.trace)));
      assert forall k | 0 <= k < |news| :: news[k] in news && news[k].remote == remote;
      forall a
        ensures SentTo(sent + Tagged(remote, datagrams), a) == SentTo(sent, a) + if a == remote then datagrams else []
        ensures About(told + news, a) == About(told, a) + if a == remote then news else []
      {
        SentToAppends(sent, remote, datagrams, a);
        AboutAppends(told, news, remote, a);
      }
    }
  }

  /** The events of what a session did between two views. */
  ghost function News<A>(remote: A, before: View, after: View): seq<SocketEvent<A>> {
    Drained(remote, Beyond(Events(before.trace), Events(after.trace)), Beyond(Data(before.trace), Data(after.trace)))
  }

  /** Only a client can take in a CRC length that its code cannot work with. */
  lemma ServersStayUsable(self: Self, v: View, datagram: bytes, random: nat, now: nat)
    requires self.mode == Server && AtRest(self, v) && v.state != Terminated && Usable(v.params)
    ensures Usable(TakeIn(self, v, datagram, random, now).params)
  {
    hide AtRest, TakeIn, Protocol.Classify;
    SessionRuns.UsableUnlessOverlong(self, v, datagram, random, now);
  }

  lemma NotEarly(v: View)
    requires Timely(v)
    ensures !Early(v.trace)
  {
  }

  lemma FreshTrace()
    ensures StageOf([]) == Fresh && Events([]) == [] && Data([]) == [] && Datagrams([]) == []
  {
  }
}
