/** Nested MultiPackets (src/session.rs): the inline recursion over bundles deals with the sub-packets
    that unpacking yields, one after another, and with nothing behind the first that ends the session. */
module BundleDispatch {
  import opened Bytes
  import Protocol
  import MultiPackets
  import RI = ReliableInput
  import SessionTrace
  import opened SessionSteps

  /** One sub-packet of a bundle. */
  function DealSub(self: Self, p: Parameters, c: ChannelPair, sub: bytes, now: nat): (o: Outcome)
    requires Usable(p) && Four(c)
    ensures Four(o.channels)
  {
    var op := Protocol.ReadOpCode(sub);
    if op.None? then Nothing(c).(ending := Some(CORRUPT))
    else Deal(self, p, c, op.value, Protocol.ReliableChannel(ReadU16(sub)), sub[2..], now)
  }

  /** Sub-packets one after another, up to the first that ends the session. */
  function DealAll(self: Self, p: Parameters, c: ChannelPair, subs: seq<bytes>, now: nat): (o: Outcome)
    requires Usable(p) && Four(c)
    ensures Four(o.channels)
    decreases |subs|
  {
    if subs == [] then Nothing(c) else
      var o := DealSub(self, p, c, subs[0], now);
      if o.ending.Some? then o else Then(o, DealAll(self, p, o.channels, subs[1..], now))
  }

  /** The recursion over a bundle is the list of its sub-packets; what is malformed behind them ends the
      session, unless one of them did. */
  lemma {:induction false} BundleIsItsSubPackets(self: Self, p: Parameters, c: ChannelPair, body: bytes, now: nat)
    requires Usable(p) && Four(c)
    ensures var o := DealAll(self, p, c, MultiPackets.Leading(body), now);
            DealBundle(self, p, c, body, now) ==
              (if o.ending.Some? || MultiPackets.SubPackets(body).Some? then o else o.(ending := Some(CORRUPT)))
    decreases |body|
  {
    hide Usable, Deal, MultiPackets.FirstSub, Protocol.ReadOpCode;
    if body == [] { return; }
    var first := MultiPackets.FirstSub(body);
    if first.None? { return; }
    var subs, rest := MultiPackets.Leading(body), body[first.value.end..];
    assert subs[0] == first.value.sub && subs[1..] == MultiPackets.Leading(rest);
    var o := DealSub(self, p, c, first.value.sub, now);
    assert o == DealFirst(self, p, c, body, now);
    BundleIsItsSubPackets(self, p, o.channels, rest, now);
  }

  /** Progress through a bundle: `done` is behind, `rest` is ahead. */
  lemma BundleStep(self: Self, p: Parameters, c: ChannelPair, done: Outcome, body: bytes, rest: bytes, now: nat)
    requires Usable(p) && Four(c) && Four(done.channels) && rest != []
    requires DealBundle(self, p, c, body, now) == Then(done, DealBundle(self, p, done.channels, rest, now))
    ensures var first := DealFirst(self, p, done.channels, rest, now);
            DealBundle(self, p, c, body, now) ==
              (if first.ending.Some? then Then(done, first)
               else Then(Then(done, first), DealBundle(self, p, first.channels, rest[MultiPackets.FirstSub(rest).value.end..], now)))
  {
    hide Usable, DealFirst, MultiPackets.FirstSub;
    var first := DealFirst(self, p, done.channels, rest, now);
    if first.ending.None? {
      var more := DealBundle(self, p, first.channels, rest[MultiPackets.FirstSub(rest).value.end..], now);
      assert done.acts + (first.acts + more.acts) == done.acts + first.acts + more.acts;
    }
  }

  lemma ConcludeTwice(self: Self, v: View, done: Outcome, first: Outcome, now: nat)
    requires v.params.crcLength <= 4 && Four(first.channels)
    ensures Conclude(self, Do(v, done.acts).(channels := done.channels), first, now) == Conclude(self, v, Then(done, first), now)
  {
    hide End;
    assert v.trace + done.acts + first.acts == v.trace + (done.acts + first.acts);
  }

  /** Short circuit: once a sub-packet has ended the session the later ones do not matter. */
  lemma {:induction false} DealAllAppends(self: Self, p: Parameters, c: ChannelPair, a: seq<bytes>, b: seq<bytes>, now: nat)
    requires Usable(p) && Four(c)
    ensures var o := DealAll(self, p, c, a, now);
            DealAll(self, p, c, a + b, now) == if o.ending.Some? then o else Then(o, DealAll(self, p, o.channels, b, now))
    decreases |a|
  {
    hide Usable, DealSub;
    if a == [] {
      assert a + b == b;
    } else {
      assert (a + b)[0] == a[0] && (a + b)[1..] == a[1..] + b;
      var o := DealSub(self, p, c, a[0], now);
      DealAllAppends(self, p, o.channels, a[1..], b, now);
      var front := DealAll(self, p, o.channels, a[1..], now);
      var back := DealAll(self, p, front.channels, b, now);
      assert o.acts + (front.acts + back.acts) == o.acts + front.acts + back.acts;
    }
  }

  /** A list of sub-packets ends the session exactly if one of them does in its turn; then the outcome is
      that of the list up to and including the first such. */
  lemma {:induction false} EndsAtTheFirst(self: Self, p: Parameters, c: ChannelPair, subs: seq<bytes>, now: nat) returns (k: nat)
    requires Usable(p) && Four(c)
    ensures k <= |subs| && DealAll(self, p, c, subs[..k], now).ending.None?
    ensures var before := DealAll(self, p, c, subs[..k], now);
            if DealAll(self, p, c, subs, now).ending.None? then k == |subs|
            else
              && k < |subs| && DealSub(self, p, before.channels, subs[k], now).ending.Some?
              && DealAll(self, p, c, subs, now) == Then(before, DealSub(self, p, before.channels, subs[k], now))
    decreases |subs|
  {
    hide Usable, DealSub;
    if subs == [] { return 0; }
    var o := DealSub(self, p, c, subs[0], now);
    if o.ending.Some? {
      assert subs[..0] == [];
      return 0;
    }
    var rest := subs[1..];
    var j := EndsAtTheFirst(self, p, o.channels, rest, now);
    k := j + 1;
    assert subs[..k][0] == subs[0] && subs[..k][1..] == rest[..j];
    var front := DealAll(self, p, o.channels, rest[..j], now);
    if j < |rest| {
      var last := DealSub(self, p, front.channels, rest[j], now);
      assert o.acts + (front.acts + last.acts) == o.acts + front.acts + last.acts;
    }
  }

  /** A session survives a bundle only if the bundle unpacks, all its OP codes are known, and dealing
      with its sub-packets in order is what was done. */
  lemma SurvivedBundle(self: Self, p: Parameters, c: ChannelPair, body: bytes, now: nat)
    requires Usable(p) && Four(c) && DealBundle(self, p, c, body, now).ending.None?
    ensures var subs := MultiPackets.SubPackets(body);
            && subs.Some? && (forall k | 0 <= k < |subs.value| :: Protocol.ReadOpCode(subs.value[k]).Some?)
            && DealBundle(self, p, c, body, now) == DealAll(self, p, c, subs.value, now)
  {
    hide Usable, Deal, DealBundle, DealAll;
    BundleIsItsSubPackets(self, p, c, body, now);
    MultiPackets.LeadingIsAll(body);
    SurvivorsHaveOpCodes(self, p, c, MultiPackets.Leading(body), now);
  }

  lemma {:induction false} SurvivorsHaveOpCodes(self: Self, p: Parameters, c: ChannelPair, subs: seq<bytes>, now: nat)
    requires Usable(p) && Four(c) && DealAll(self, p, c, subs, now).ending.None?
    ensures forall k | 0 <= k < |subs| :: Protocol.ReadOpCode(subs[k]).Some?
    decreases |subs|
  {
    hide Usable, Deal, Protocol.ReadOpCode;
    if subs != [] {
      SurvivorsHaveOpCodes(self, p, DealSub(self, p, c, subs[0], now).channels, subs[1..], now);
      assert forall k | 1 <= k < |subs| :: subs[k] == subs[1..][k - 1];
    }
  }

  // ----- All levels at once ------------------------------------------------------------------

  /** What is left of nested bundles when they are flattened. */
  datatype Leaf = Packet(op: Protocol.OpCode, ch: nat, body: bytes) | Malformed

  /** The packets at all depths, in order, up to the first malformed place. */
  function Leaves(op: Protocol.OpCode, ch: nat, body: bytes): seq<Leaf>
    decreases |body|, 1
  {
    if op == Protocol.MultiPacket then BundleLeaves(body) else [Packet(op, ch, body)]
  }

  function BundleLeaves(body: bytes): seq<Leaf>
    decreases |body|, 0
  {
    if body == [] then [] else
      var first := MultiPackets.FirstSub(body);
      if first.None? || Protocol.ReadOpCode(first.value.sub).None? then [Malformed] else
        var sub := first.value.sub;
        Leaves(Protocol.ReadOpCode(sub).value, Protocol.ReliableChannel(ReadU16(sub)), sub[2..])
        + BundleLeaves(body[first.value.end..])
  }

  /** One leaf; a packet is dealt with as it would be outside of a bundle. */
  function DealLeaf(self: Self, p: Parameters, c: ChannelPair, leaf: Leaf, now: nat): (o: Outcome)
    requires Usable(p) && Four(c) && (leaf.Packet? ==> leaf.ch < 4)
    ensures Four(o.channels)
  {
    match leaf
    case Malformed => Nothing(c).(ending := Some(CORRUPT))
    case Packet(op, ch, body) => Deal(self, p, c, op, ch, body, now)
  }

  predicate OnChannels(leaves: seq<Leaf>) {
    forall k | 0 <= k < |leaves| :: leaves[k].Packet? ==> leaves[k].ch < 4
  }

  /** Leaves one after another, up to the first that ends the session. */
  function DealLeaves(self: Self, p: Parameters, c: ChannelPair, leaves: seq<Leaf>, now: nat): (o: Outcome)
    requires Usable(p) && Four(c) && OnChannels(leaves)
    ensures Four(o.channels)
    decreases |leaves|
  {
    if leaves == [] then Nothing(c) else
      var o := DealLeaf(self, p, c, leaves[0], now);
      if o.ending.Some? then o else Then(o, DealLeaves(self, p, o.channels, leaves[1..], now))
  }

  lemma {:induction false} DealLeavesAppends(self: Self, p: Parameters, c: ChannelPair, a: seq<Leaf>, b: seq<Leaf>, now: nat)
    requires Usable(p) && Four(c) && OnChannels(a) && OnChannels(b)
    ensures OnChannels(a + b)
    ensures var o := DealLeaves(self, p, c, a, now);
            DealLeaves(self, p, c, a + b, now) == if o.ending.Some? then o else Then(o, DealLeaves(self, p, o.channels, b, now))
    decreases |a|
  {
    hide Usable, DealLeaf;
    if a == [] {
      assert a + b == b;
    } else {
      assert (a + b)[0] == a[0] && (a + b)[1..] == a[1..] + b;
      var o := DealLeaf(self, p, c, a[0], now);
      DealLeavesAppends(self, p, o.channels, a[1..], b, now);
      var front := DealLeaves(self, p, o.channels, a[1..], now);
      var back := DealLeaves(self, p, front.channels, b, now);
      assert o.acts + (front.acts + back.acts) == o.acts + front.acts + back.acts;
    }
  }

  /** The recursion at any depth is the flat list of leaves. */
  lemma {:induction false} DealIsItsLeaves(self: Self, p: Parameters, c: ChannelPair, op: Protocol.OpCode, ch: nat, body: bytes, now: nat)
    requires Usable(p) && Four(c) && ch < 4
    ensures OnChannels(Leaves(op, ch, body))
    ensures Deal(self, p, c, op, ch, body, now) == DealLeaves(self, p, c, Leaves(op, ch, body), now)
    decreases |body|, 1
  {
    hide Usable, DealBundle, BundleLeaves;
    if op == Protocol.MultiPacket {
      BundleIsItsLeaves(self, p, c, body, now);
    } else {
      OneLeaf(self, p, c, Packet(op, ch, body), now);
    }
  }

  lemma OneLeaf(self: Self, p: Parameters, c: ChannelPair, leaf: Leaf, now: nat)
    requires Usable(p) && Four(c) && (leaf.Packet? ==> leaf.ch < 4)
    ensures DealLeaves(self, p, c, [leaf], now) == DealLeaf(self, p, c, leaf, now)
  {
    hide Usable, DealLeaf;
    var leaves, o := [leaf], DealLeaf(self, p, c, leaf, now);
    assert leaves[1..] == [] && o.acts + [] == o.acts;
  }

  lemma {:induction false} BundleIsItsLeaves(self: Self, p: Parameters, c: ChannelPair, body: bytes, now: nat)
    requires Usable(p) && Four(c)
    ensures OnChannels(BundleLeaves(body))
    ensures DealBundle(self, p, c, body, now) == DealLeaves(self, p, c, BundleLeaves(body), now)
    decreases |body|, 0
  {
    if body == [] { return; }
    var first := MultiPackets.FirstSub(body);
    if first.None? || Protocol.ReadOpCode(first.value.sub).None? {
      OneLeaf(self, p, c, Malformed, now);
      return;
    }
    hide Usable, Deal, DealLeaf, DealLeaves, Leaves, MultiPackets.FirstSub, Protocol.ReadOpCode;
    var sub, rest := first.value.sub, body[first.value.end..];
    var op, ch := Protocol.ReadOpCode(sub).value, Protocol.ReliableChannel(ReadU16(sub));
    DealIsItsLeaves(self, p, c, op, ch, sub[2..], now);
    var o := Deal(self, p, c, op, ch, sub[2..], now);
    BundleIsItsLeaves(self, p, o.channels, rest, now);
    DealLeavesAppends(self, p, c, Leaves(op, ch, sub[2..]), BundleLeaves(rest), now);
  }

  /** Which leaves end a session: malformed ones, a Disconnect of six bytes or more, and data that its
      channel finds malformed. */
  lemma WhichLeafEnds(self: Self, p: Parameters, c: ChannelPair, leaf: Leaf, now: nat)
    requires Usable(p) && Four(c) && (leaf.Packet? ==> leaf.ch < 4 && leaf.op != Protocol.MultiPacket)
    ensures DealLeaf(self, p, c, leaf, now).ending.Some? <==>
      || leaf.Malformed?
      || (leaf.op == Protocol.Disconnect && |leaf.body| >= 6)
      || ((leaf.op == Protocol.ReliableData || leaf.op == Protocol.ReliableDataFragment)
          && !Received(self, p, c, SessionTrace.ChannelCall(leaf.op, leaf.ch, leaf.body), now).ok)
  {
    hide RI.Receive, FedOne;
  }

  /** No leaf is a bundle any more. */
  lemma {:induction false} LeavesAreFlat(op: Protocol.OpCode, ch: nat, body: bytes)
    ensures forall k | 0 <= k < |Leaves(op, ch, body)| ::
      var leaf := Leaves(op, ch, body)[k]; leaf.Packet? ==> leaf.op != Protocol.MultiPacket
    decreases |body|, 1
  {
    if op == Protocol.MultiPacket { BundleLeavesAreFlat(body); }
  }

  lemma {:induction false} BundleLeavesAreFlat(body: bytes)
    ensures forall k | 0 <= k < |BundleLeaves(body)| ::
      var leaf := BundleLeaves(body)[k]; leaf.Packet? ==> leaf.op != Protocol.MultiPacket
    decreases |body|, 0
  {
    hide Leaves, MultiPackets.FirstSub, Protocol.ReadOpCode;
    var first := MultiPackets.FirstSub(body);
    if body == [] || first.None? || Protocol.ReadOpCode(first.value.sub).None? { return; }
    var sub := first.value.sub;
    LeavesAreFlat(Protocol.ReadOpCode(sub).value, Protocol.ReliableChannel(ReadU16(sub)), sub[2..]);
    BundleLeavesAreFlat(body[first.value.end..]);
  }

  /** Short circuit at any depth: a packet ends the session exactly if one of its leaves does in its turn,
      and the outcome is that up to this leaf. */
  lemma {:induction false} EndsAtALeaf(self: Self, p: Parameters, c: ChannelPair, leaves: seq<Leaf>, now: nat) returns (k: nat)
    requires Usable(p) && Four(c) && OnChannels(leaves)
    ensures k <= |leaves| && OnChannels(leaves[..k]) && DealLeaves(self, p, c, leaves[..k], now).ending.None?
    ensures var before := DealLeaves(self, p, c, leaves[..k], now);
            if DealLeaves(self, p, c, leaves, now).ending.None? then k == |leaves|
            else
              && k < |leaves| && DealLeaf(self, p, before.channels, leaves[k], now).ending.Some?
              && DealLeaves(self, p, c, leaves, now) == Then(before, DealLeaf(self, p, before.channels, leaves[k], now))
    decreases |leaves|
  {
    hide Usable, DealLeaf;
    if leaves == [] { return 0; }
    var o := DealLeaf(self, p, c, leaves[0], now);
    if o.ending.Some? {
      assert leaves[..0] == [];
      return 0;
    }
    var rest := leaves[1..];
    var j := EndsAtALeaf(self, p, o.channels, rest, now);
    k := j + 1;
    assert leaves[..k][0] == leaves[0] && leaves[..k][1..] == rest[..j];
    var front := DealLeaves(self, p, o.channels, rest[..j], now);
    if j < |rest| {
      var last := DealLeaf(self, p, front.channels, rest[j], now);
      assert o.acts + (front.acts + last.acts) == o.acts + front.acts + last.acts;
    }
  }

  /** Data behind a Disconnect in a bundle never reaches a channel. */
  lemma NothingBehindADisconnect(self: Self, p: Parameters, c: ChannelPair, a: seq<bytes>, sub: bytes, b: seq<bytes>, now: nat)
    requires Usable(p) && Four(c) && DealAll(self, p, c, a, now).ending.None?
    requires Protocol.ReadOpCode(sub) == Some(Protocol.Disconnect) && |sub| >= 8
    ensures var o := DealAll(self, p, c, a + [sub] + b, now);
            && o.acts == DealAll(self, p, c, a, now).acts && o.channels == DealAll(self, p, c, a, now).channels
            && o.ending == Some(Ending(ReasonOf(ReadU16(sub[6..])), false, true))
  {
    hide Usable, ReasonOf, Protocol.FromU16, DealBundle;
    var before := DealAll(self, p, c, a, now);
    DealAllAppends(self, p, c, a, [sub], now);
    DealAllAppends(self, p, c, a + [sub], b, now);
    assert [sub][1..] == [] && sub[2..][4..] == sub[6..];
  }
}
