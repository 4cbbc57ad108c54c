/** What a session does, as a trace of acts, and the lifecycle such a trace must follow. */
module SessionTrace {
  import opened Bytes
  import Protocol

  datatype Reason =
    | NoReason | IcmpError | Timeout | OtherSideTerminated | ManagerDeleted | ConnectFail | Application
    | UnreachableConnection | UnacknowledgedTimeout | NewConnectionAttempt | ConnectionRefused
    | ConnectError | ConnectingToSelf | ReliableOverflow | ApplicationReleased | CorruptPacket
    | ProtocolMismatch

  datatype SessionEvent = Opened | Closed(reason: Reason)

  datatype Channel = Reliable(index: nat) | Unreliable

  datatype ReceivedData = ReceivedData(data: bytes, channel: Channel)

  /** A packet handed to one of the reliable channels. */
  datatype ChannelCall = ChannelCall(op: Protocol.OpCode, index: nat, body: bytes)

  datatype Act =
    | Send(datagram: bytes)
    | Emit(event: SessionEvent)
    | Receive(data: ReceivedData)
    | Call(call: ChannelCall)

  datatype Stage = Fresh | Open | Ended | Broken

  function Advance(s: Stage, a: Act): Stage {
    match s
    case Fresh => if a == Emit(Opened) then Open else if a.Emit? then Ended else Fresh
    case Open => if a == Emit(Opened) then Broken else if a.Emit? then Ended else Open
    case _ => Broken
  }

  function StageOf(trace: seq<Act>): Stage {
    if trace == [] then Fresh else Advance(StageOf(trace[..|trace| - 1]), trace[|trace| - 1])
  }

  /** Application data was surfaced before the session was reported open. */
  predicate Early(trace: seq<Act>) {
    trace != [] && (Early(trace[..|trace| - 1]) || (trace[|trace| - 1].Receive? && StageOf(trace[..|trace| - 1]) == Fresh))
  }

  function Datagrams(trace: seq<Act>): seq<bytes> {
    if trace == [] then [] else
      var last := trace[|trace| - 1];
      Datagrams(trace[..|trace| - 1]) + if last.Send? then [last.datagram] else []
  }

  function Events(trace: seq<Act>): seq<SessionEvent> {
    if trace == [] then [] else
      var last := trace[|trace| - 1];
      Events(trace[..|trace| - 1]) + if last.Emit? then [last.event] else []
  }

  function Data(trace: seq<Act>): seq<ReceivedData> {
    if trace == [] then [] else
      var last := trace[|trace| - 1];
      Data(trace[..|trace| - 1]) + if last.Receive? then [last.data] else []
  }

  lemma Pushed(trace: seq<Act>, a: Act)
    ensures var t := trace + [a];
            && StageOf(t) == Advance(StageOf(trace), a)
            && (Early(t) <==> Early(trace) || (a.Receive? && StageOf(trace) == Fresh))
            && Datagrams(t) == Datagrams(trace) + (if a.Send? then [a.datagram] else [])
            && Events(t) == Events(trace) + (if a.Emit? then [a.event] else [])
            && Data(t) == Data(trace) + (if a.Receive? then [a.data] else [])
  {
    assert (trace + [a])[..|trace|] == trace;
  }

  // ----- What an unbroken trace looks like ---------------------------------------------------

  /** At most one Opened and one Closed, Opened first; and unless data came early, none without an
      Opened. */
  lemma {:induction false} EventsOfStage(trace: seq<Act>)
    requires StageOf(trace) != Broken
    ensures StageOf(trace) == Fresh ==> Events(trace) == []
    ensures StageOf(trace) == Open ==> Events(trace) == [Opened]
    ensures StageOf(trace) == Ended ==>
      var e := Events(trace);
      (|e| == 1 && e[0].Closed?) || (|e| == 2 && e[0] == Opened && e[1].Closed?)
    ensures !Early(trace) && Opened !in Events(trace) ==> Data(trace) == []
  {
    if trace != [] { EventsOfStage(trace[..|trace| - 1]); }
  }

  /** Closed is the last act of all: nothing is sent, received or handed to a channel after it. */
  lemma {:induction false} ClosedIsLast(trace: seq<Act>, i: nat)
    requires StageOf(trace) != Broken && i < |trace| && trace[i].Emit? && trace[i].event.Closed?
    ensures i == |trace| - 1
  {
    var n := |trace| - 1;
    if i < n {
      ClosedIsLast(trace[..n], i);
      assert StageOf(trace[..n]) == Ended by { EndsAtClosed(trace[..n]); }
    }
  }

  lemma EndsAtClosed(trace: seq<Act>)
    requires trace != [] && StageOf(trace) != Broken
    requires trace[|trace| - 1].Emit? && trace[|trace| - 1].event.Closed?
    ensures StageOf(trace) == Ended
  {
  }

  lemma EndedEndsWithClosed(trace: seq<Act>)
    requires StageOf(trace) == Ended
    ensures trace != [] && trace[|trace| - 1].Emit? && trace[|trace| - 1].event.Closed?
  {
  }
}
