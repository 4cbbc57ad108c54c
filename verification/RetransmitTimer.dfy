/** The retransmission timer (src/channel/output.rs), an estimator after sections 2.2, 2.3 and 5.5 of
    RFC 6298 with the code's own bounds, over arbitrary runs of samples and backoffs. */
module RetransmitTimer {
  import opened Bytes
  import opened Rc4
  import opened DataCodec
  import opened ReliableOutput
  import opened OutputRuns

  ghost predicate RtoInRange(t: Timer) {
    RTO_MIN <= t.rto <= RTO_MAX
  }

  /** Every call either leaves the timer alone, backs it off or folds in a sample. */
  lemma CallKeepsRange(o: OutputState, call: Call)
    requires Callable(o.config, call) && RtoInRange(o.timer)
    ensures RtoInRange(Apply(o, call).timer)
  {
    hide Releases, Acknowledge, AcknowledgeAll, EncodeMessage, StashAll, Enqueue;
    match call
    case EnqueueData(data) =>
      EnqueueIsStash(o, data);
      StashAllAppends(o, EncodeMessage(o.cipher, o.config.maxDataLength, data).items);
    case Tick(_) =>
    case Take =>
    case _ => AcknowledgementReleases(o, call);
  }

  /** With an initial timeout between 200 ms and 8 s the timeout stays there in every run. */
  lemma {:induction false} RtoStaysInRange(config: OutputConfig, cipher: Option<Cipher>, calls: seq<Call>)
    requires forall k | 0 <= k < |calls| :: Callable(config, calls[k])
    requires RTO_MIN <= config.ackWait <= RTO_MAX
    ensures RtoInRange(Run(Initial(config, cipher), calls).timer)
    decreases |calls|
  {
    hide Apply;
    if calls != [] {
      RtoStaysInRange(config, cipher, calls[..|calls| - 1]);
      CallKeepsRange(Run(Initial(config, cipher), calls[..|calls| - 1]), calls[|calls| - 1]);
    }
  }

  // ----- Samples ---------------------------------------------------------------------------

  function FoldSamples(t: Timer, samples: seq<nat>): Timer {
    if samples == [] then t else UpdateRto(FoldSamples(t, samples[..|samples| - 1]), samples[|samples| - 1])
  }

  /** The smoothed round trip stays between the least and the greatest sample, although each step
      rounds down. */
  lemma {:induction false} SmoothedStaysBetween(samples: seq<nat>, rto: nat, low: nat, high: nat)
    requires forall k | 0 <= k < |samples| :: low <= samples[k] <= high
    ensures var t := FoldSamples(Timer(None, 0, rto), samples);
            if samples == [] then t.srtt == None else t.srtt.Some? && low <= t.srtt.value <= high
  {
    if samples != [] { SmoothedStaysBetween(samples[..|samples| - 1], rto, low, high); }
  }

  /** The timeout within its bounds of 200 ms and 8 s. */
  function Bounded(rto: nat): nat {
    Min(Max(rto, 200_000_000), 8_000_000_000)
  }

  /** A first sample sets the timeout to itself plus four times its half, but at least 100 ms. */
  lemma FirstSample(t: Timer, sample: nat)
    requires t.srtt.None?
    ensures var t' := UpdateRto(t, sample);
            t'.srtt == Some(sample) && t'.rto == Bounded(sample + Max(100_000_000, 4 * (sample / 2)))
  {
  }

  /** The timeout is neither bounded nor at its least distance from the smoothed value. */
  predicate Free(t: Timer) {
    t.srtt.Some? && 200_000_000 < t.rto < 8_000_000_000 && t.rto > t.srtt.value + 100_000_000
  }

  /** Every later one moves the smoothed value by an eighth of its distance, and the headroom of the timeout
      above it to three quarters of the old one plus that distance. Rounding takes away less than 1 ns of the
      first and less than 4 ns of the second. */
  lemma LaterSample(t: Timer, last: nat, sample: nat)
    ensures var t1, t2 := UpdateRto(t, last), UpdateRto(UpdateRto(t, last), sample);
            && t1.srtt.Some? && t2.srtt.Some?
            && var srtt, srtt' := t1.srtt.value, t2.srtt.value;
            var distance := if sample >= srtt then sample - srtt else srtt - sample;
            && 7 * srtt + sample - 8 < 8 * srtt' <= 7 * srtt + sample
            && t2.rto >= Min(8_000_000_000, srtt' + distance - 3)
            && (Free(t1) && Free(t2) ==>
                  4 * distance + 3 * (t1.rto - srtt) - 16 < 4 * (t2.rto - srtt') <= 4 * distance + 3 * (t1.rto - srtt))
  {
  }

  /** After any samples the headroom is bounded by what they differ, or by the first one. */
  lemma {:induction false} TimeoutIsBounded(samples: seq<nat>, rto: nat, low: nat, high: nat)
    requires samples != [] && forall k | 0 <= k < |samples| :: low <= samples[k] <= high
    ensures var t, most := FoldSamples(Timer(None, 0, rto), samples), Max(high - low, samples[0] / 2);
            t.srtt.Some? && t.rttvar <= most && t.rto <= Bounded(high + Max(100_000_000, 4 * most))
  {
    hide UpdateRto, Bounded;
    var n := |samples| - 1;
    var before := FoldSamples(Timer(None, 0, rto), samples[..n]);
    SmoothedStaysBetween(samples[..n], rto, low, high);
    if n > 0 { TimeoutIsBounded(samples[..n], rto, low, high); }
    OneMoreSample(before, samples[n], low, high, Max(high - low, samples[0] / 2));
  }

  lemma OneMoreSample(t: Timer, sample: nat, low: nat, high: nat, most: nat)
    requires low <= sample <= high && high - low <= most
    requires if t.srtt.None? then sample / 2 <= most else low <= t.srtt.value <= high && t.rttvar <= most
    ensures var t' := UpdateRto(t, sample);
            t'.srtt.Some? && t'.rttvar <= most && t'.rto <= Bounded(high + Max(100_000_000, 4 * most))
  {
  }

  function Constant(n: nat, sample: nat): seq<nat> {
    seq(n, _ => sample)
  }

  lemma ConstantStep(t: Timer, n: nat, sample: nat)
    requires n >= 1
    ensures FoldSamples(t, Constant(n, sample)) == UpdateRto(FoldSamples(t, Constant(n - 1, sample)), sample)
  {
    assert Constant(n, sample)[..n - 1] == Constant(n - 1, sample);
  }

  /** Rounding down lets the smoothed value come to rest up to 7 ns below a constant sample; from then
      on the variation decays to at most a quarter of the granularity. */
  predicate Settled(t: Timer, sample: nat) {
    t.srtt.Some? && sample - 7 <= t.srtt.value <= sample && t.rttvar * 4 <= RTO_GRANULARITY
  }

  /** A settled timer does not move again, and its timeout is the one the estimate stands for. */
  lemma SettledStays(t: Timer, sample: nat)
    requires Settled(t, sample)
    ensures Settled(UpdateRto(t, sample), sample)
    ensures UpdateRto(t, sample).srtt == t.srtt
    ensures UpdateRto(t, sample).rto == Clamp(t.srtt.value + RTO_GRANULARITY)
  {
  }

  function Distance(t: Timer, sample: nat): nat {
    if t.srtt.None? then 0
    else if t.srtt.value > sample then t.srtt.value - sample
    else if t.srtt.value + 7 < sample then sample - t.srtt.value
    else 0
  }

  lemma SmoothedApproaches(t: Timer, sample: nat)
    requires t.srtt.Some?
    ensures Distance(t, sample) > 0 ==> Distance(UpdateRto(t, sample), sample) < Distance(t, sample)
    ensures Distance(t, sample) == 0 ==> UpdateRto(t, sample).srtt == t.srtt
    ensures Distance(t, sample) == 0 && t.rttvar * 4 > RTO_GRANULARITY ==> UpdateRto(t, sample).rttvar < t.rttvar
  {
  }

  /** How many constant samples it takes to settle. */
  function SettlingTime(t: Timer, sample: nat): nat
    decreases t.srtt.None?, Distance(t, sample), t.rttvar
  {
    if t.srtt.None? then 1 + SettlingTime(UpdateRto(t, sample), sample)
    else if Settled(t, sample) then 0
    else
      SmoothedApproaches(t, sample);
      1 + SettlingTime(UpdateRto(t, sample), sample)
  }

  lemma {:induction false} FoldFromFront(t: Timer, n: nat, sample: nat)
    requires n >= 1
    ensures FoldSamples(t, Constant(n, sample)) == FoldSamples(UpdateRto(t, sample), Constant(n - 1, sample))
  {
    ConstantStep(t, n, sample);
    if n > 1 {
      FoldFromFront(t, n - 1, sample);
      ConstantStep(UpdateRto(t, sample), n - 1, sample);
    }
  }

  /** Where constant samples bring the smoothed value: to the sample from above or from nothing, and from
      below to 7 ns short of it, or as close as it was. */
  function RestingPoint(srtt: Option<nat>, sample: nat): (rest: nat)
    ensures rest == sample <==> srtt.None? || srtt.value >= sample
  {
    if srtt.None? || srtt.value >= sample then sample else sample - Min(7, sample - srtt.value)
  }

  lemma RestingPointStays(t: Timer, sample: nat)
    ensures RestingPoint(UpdateRto(t, sample).srtt, sample) == RestingPoint(t.srtt, sample)
    ensures Settled(t, sample) ==> t.srtt == Some(RestingPoint(t.srtt, sample))
  {
  }

  /** From any timer whatever, enough constant samples settle it for good: the smoothed value comes to its
      resting point and the timeout 100 ms above it, within its bounds. */
  lemma {:induction false} ConstantSamplesSettle(t: Timer, sample: nat, n: nat)
    requires n > SettlingTime(t, sample)
    ensures var t', rest := FoldSamples(t, Constant(n, sample)), RestingPoint(t.srtt, sample);
            Settled(t', sample) && t'.srtt == Some(rest) && t'.rto == Clamp(rest + RTO_GRANULARITY)
    decreases n
  {
    hide UpdateRto, Settled, FoldSamples, Constant, RestingPoint, Clamp;
    RestingPointStays(t, sample);
    if t.srtt.Some? && Settled(t, sample) {
      StaysSettled(t, sample, n);
    } else {
      FoldFromFront(t, n, sample);
      ConstantSamplesSettle(UpdateRto(t, sample), sample, n - 1);
    }
  }

  /** The exact condition for the smoothed value to reach a constant sample. */
  lemma ReachesSampleIff(t: Timer, sample: nat, n: nat)
    requires n > SettlingTime(t, sample)
    ensures FoldSamples(t, Constant(n, sample)).srtt == Some(sample) <==> t.srtt.None? || t.srtt.value >= sample
  {
    ConstantSamplesSettle(t, sample, n);
  }

  lemma {:induction false} StaysSettled(t: Timer, sample: nat, n: nat)
    requires Settled(t, sample) && n >= 1
    ensures var t' := FoldSamples(t, Constant(n, sample));
            Settled(t', sample) && t'.srtt == t.srtt && t'.rto == Clamp(t.srtt.value + RTO_GRANULARITY)
  {
    hide UpdateRto, Settled, Clamp;
    ConstantStep(t, n, sample);
    if n > 1 { StaysSettled(t, sample, n - 1); }
    SettledStays(FoldSamples(t, Constant(n - 1, sample)), sample);
  }

  /** With a constant round trip from the start the timeout reaches the clamped round trip plus 100 ms after
      finitely many samples and stays there until a backoff. */
  lemma ConstantRoundTrip(sample: nat, rto: nat, n: nat)
    requires n > SettlingTime(Timer(None, 0, rto), sample)
    ensures FoldSamples(Timer(None, 0, rto), Constant(n, sample)).rto == Clamp(sample + RTO_GRANULARITY)
  {
    ConstantSamplesSettle(Timer(None, 0, rto), sample, n);
  }

  lemma {:induction false} FoldFirst(t: Timer, first: nat, samples: seq<nat>)
    ensures FoldSamples(t, [first] + samples) == FoldSamples(UpdateRto(t, first), samples)
  {
    hide UpdateRto;
    var all := [first] + samples;
    if samples == [] {
      assert all[..0] == [];
    } else {
      assert all[..|all| - 1] == [first] + samples[..|samples| - 1];
      FoldFirst(t, first, samples[..|samples| - 1]);
    }
  }

  /** A run that never gets there: a fresh timer, one sample 7 ns short of a second, then a second each
      time. The timeout settles 7 ns below the clamped round trip plus 100 ms. */
  lemma RestsBelowSample(rto: nat, n: nat)
    requires n > SettlingTime(UpdateRto(Timer(None, 0, rto), 999_999_993), 1_000_000_000)
    ensures var t := FoldSamples(Timer(None, 0, rto), [999_999_993] + Constant(n, 1_000_000_000));
            t.srtt == Some(999_999_993) && t.rto == 1_099_999_993 < Clamp(1_000_000_000 + RTO_GRANULARITY)
  {
    hide FoldSamples, SettlingTime, Constant;
    FoldFirst(Timer(None, 0, rto), 999_999_993, Constant(n, 1_000_000_000));
    ConstantSamplesSettle(UpdateRto(Timer(None, 0, rto), 999_999_993), 1_000_000_000, n);
  }
}
