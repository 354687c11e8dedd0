/** The video bitrate estimator of the ring buffer: a circular window of
    (bytes, clock) samples and an exponential average over its slope. */
module PcrBitrate {
  import opened Common
  import opened TsPackets

  const WINDOW_SIZE: nat := 8
  const CLOCK_RATE: int := 27_000_000
  /** pcrMaxTicks, 2^42, and its half. */
  const MAX_TICKS: int := 0x400_0000_0000
  const HALF_TICKS: int := MAX_TICKS / 2
  const MIN_BPS: real := 10_000.0
  const MAX_BPS: real := 500_000_000.0
  const ALPHA: real := 0.25

  datatype Sample = Sample(bytes: int, ticks: int)

  datatype Estimate = Estimate(pid: nat, window: seq<Sample>, bps: real)

  const NO_ESTIMATE := Estimate(0, [], 0.0)

  // ---- what one observation does ----

  function Push(window: seq<Sample>, s: Sample): seq<Sample> {
    LastN(window + [s], WINDOW_SIZE)
  }

  /** The clock advance the code computes, with its own rollover constant. */
  function TickDelta(ticks: int, oldest: int): int {
    if ticks - oldest < 0 then ticks - oldest + MAX_TICKS else ticks - oldest
  }

  /** The pushed sample makes the window inconsistent. */
  predicate Discards(window: seq<Sample>, s: Sample) {
    var w := Push(window, s);
    |w| >= 2
    && (s.bytes - w[0].bytes <= 0 || TickDelta(s.ticks, w[0].ticks) <= 0
        || TickDelta(s.ticks, w[0].ticks) > HALF_TICKS)
  }

  function RawBps(dBytes: int, dTicks: int): real
    requires dTicks > 0
  {
    dBytes as real / (dTicks as real / CLOCK_RATE as real)
  }

  function Smooth(bps: real, raw: real): real {
    if raw < MIN_BPS || raw > MAX_BPS then bps
    else if bps == 0.0 then raw
    else ALPHA * raw + (1.0 - ALPHA) * bps
  }

  function Observe(e: Estimate, pid: nat, s: Sample): Estimate {
    if e.pid != 0 && e.pid != pid then e
    else
      var w := Push(e.window, s);
      if |w| < 2 then Estimate(pid, w, e.bps)
      else if Discards(e.window, s) then Estimate(pid, [s], e.bps)
      else
        Estimate(pid, w, Smooth(e.bps, RawBps(s.bytes - w[0].bytes, TickDelta(s.ticks, w[0].ticks))))
  }

  /** One stored chunk, seen when bytesAtWrite bytes had been stored. */
  function ObserveChunk(e: Estimate, chunk: Bytes, bytesAtWrite: int): Estimate {
    match LastClock(SyncScan(chunk, 0))
    case None => e
    case Some(clock) => Observe(e, clock.pid, Sample(bytesAtWrite, clock.ticks))
  }

  /** A chunk with a clock is observed by its last one; a chunk without changes nothing. */
  lemma ChunkObserved(e: Estimate, chunk: Bytes, bytesAtWrite: int)
    ensures match LastClock(SyncScan(chunk, 0))
      case None => ObserveChunk(e, chunk, bytesAtWrite) == e
      case Some(clock) => ObserveChunk(e, chunk, bytesAtWrite) == Observe(e, clock.pid, Sample(bytesAtWrite, clock.ticks))
  {
    hide SyncScan, LastClock, Observe;
  }

  class Estimator {
    const samples: array<Sample>
    var pcrHead: nat
    var pcrCount: nat
    var pcrPid: nat
    var pcrBitrateBps: real
    /** The pcrCount most recent samples, oldest first. */
    ghost var window: seq<Sample>

    ghost predicate Valid()
      reads this, samples
    {
      samples.Length == WINDOW_SIZE && pcrHead < WINDOW_SIZE && pcrCount <= WINDOW_SIZE
      && |window| == pcrCount
      && forall k :: 0 <= k < pcrCount ==> samples[Slot(k)] == window[k]
    }

    /** Position of the k-th oldest sample. */
    function Slot(k: nat): (r: nat)
      requires pcrHead < WINDOW_SIZE && k < pcrCount <= WINDOW_SIZE
      reads this
      ensures r < WINDOW_SIZE
    {
      if pcrHead + k >= pcrCount then pcrHead + k - pcrCount else pcrHead + k + WINDOW_SIZE - pcrCount
    }

    ghost function View(): Estimate
      reads this
    {
      Estimate(pcrPid, window, pcrBitrateBps)
    }

    constructor ()
      ensures Valid() && fresh(samples)
      ensures View() == NO_ESTIMATE
    {
      samples := new Sample[WINDOW_SIZE](_ => Sample(0, 0));
      pcrHead, pcrCount, pcrPid, pcrBitrateBps, window := 0, 0, 0, 0.0, [];
    }

    /** The estimator's part of a buffer reset. */
    method Clear()
      requires Valid()
      modifies this, samples
      ensures Valid() && View() == NO_ESTIMATE
    {
      for i := 0 to samples.Length {
        samples[i] := Sample(0, 0);
      }
      pcrHead, pcrCount, pcrPid, pcrBitrateBps, window := 0, 0, 0, 0.0, [];
    }

    method AddSample(s: Sample)
      requires Valid()
      modifies this`pcrHead, this`pcrCount, this`window, samples
      ensures Valid() && window == Push(old(window), s)
    {
      samples[pcrHead] := s;
      pcrHead := (pcrHead + 1) % WINDOW_SIZE;
      if pcrCount < WINDOW_SIZE {
        pcrCount := pcrCount + 1;
      }
      window := Push(window, s);
      forall k | 0 <= k < pcrCount ensures samples[Slot(k)] == window[k] {
        assert k < pcrCount - 1 <==> Slot(k) != old(pcrHead);
      }
    }

    /** The discard path: only s stays, in the place it was just written to. */
    method RestartWindow(s: Sample)
      requires Valid()
      modifies this`pcrHead, this`pcrCount, this`window, samples
      ensures Valid() && window == [s]
    {
      pcrCount := 1;
      pcrHead := (pcrHead - 1 + WINDOW_SIZE) % WINDOW_SIZE;
      samples[pcrHead] := s;
      pcrHead := (pcrHead + 1) % WINDOW_SIZE;
      window := [s];
    }

    /** Folds one clock into the window and the average. */
    method Record(pid: nat, s: Sample)
      requires Valid()
      modifies this, samples
      ensures Valid()
      ensures View() == Observe(old(View()), pid, s)
    {
      if pcrPid == 0 {
        pcrPid := pid;
      } else if pcrPid != pid {
        return;
      }
      AddSample(s);
      if pcrCount < 2 {
        return;
      }
      var oldestIdx := (pcrHead - pcrCount + WINDOW_SIZE) % WINDOW_SIZE;
      assert oldestIdx == Slot(0);
      var oldest := samples[oldestIdx];
      var dBytes := s.bytes - oldest.bytes;
      var dTicks := s.ticks - oldest.ticks;
      if dTicks < 0 {
        dTicks := dTicks + MAX_TICKS;
      }
      if dBytes <= 0 || dTicks <= 0 || dTicks > HALF_TICKS {
        RestartWindow(s);
        return;
      }
      var raw := RawBps(dBytes, dTicks);
      if raw < MIN_BPS || raw > MAX_BPS {
        return;
      }
      if pcrBitrateBps == 0.0 {
        pcrBitrateBps := raw;
      } else {
        pcrBitrateBps := ALPHA * raw + (1.0 - ALPHA) * pcrBitrateBps;
      }
    }

    /** Scans a stored chunk and folds its last clock into the estimate. */
    method UpdatePcrBitrate(chunk: Bytes, bytesAtWrite: int)
      requires Valid()
      modifies this, samples
      ensures Valid()
      ensures View() == ObserveChunk(old(View()), chunk, bytesAtWrite)
    {
      var clock := ScanForLastPcr(chunk);
      if clock.Some? {
        Record(clock.value.pid, Sample(bytesAtWrite, clock.value.ticks));
      }
    }
  }

  // ---- every run of observations ----

  datatype Observation = Observation(pid: nat, sample: Sample)

  function Observations(obs: seq<Observation>): Estimate {
    if obs == [] then NO_ESTIMATE
    else
      var o := obs[|obs| - 1];
      Observe(Observations(obs[..|obs| - 1]), o.pid, o.sample)
  }

  /** The accepted samples since the last discard, that one included. */
  function SinceDiscard(obs: seq<Observation>): seq<Sample> {
    if obs == [] then []
    else
      var e := Observations(obs[..|obs| - 1]);
      var o := obs[|obs| - 1];
      var before := SinceDiscard(obs[..|obs| - 1]);
      if e.pid != 0 && e.pid != o.pid then before
      else if Discards(e.window, o.sample) then [o.sample]
      else before + [o.sample]
  }

  /** The circular window is always the last at most eight samples accepted
      since the last discard. */
  lemma {:induction false} WindowIsRecent(obs: seq<Observation>)
    ensures Observations(obs).window == LastN(SinceDiscard(obs), WINDOW_SIZE)
  {
    hide Smooth, RawBps, Discards, TickDelta;
    if obs != [] {
      WindowIsRecent(obs[..|obs| - 1]);
    }
  }

  ghost predicate SaneBps(bps: real) {
    bps == 0.0 || MIN_BPS <= bps <= MAX_BPS
  }

  /** The estimate is never anything but zero or a rate in the sane range. */
  lemma {:induction false} EstimateAlwaysSane(obs: seq<Observation>)
    ensures SaneBps(Observations(obs).bps)
  {
    if obs != [] {
      EstimateAlwaysSane(obs[..|obs| - 1]);
    }
  }

  /** An accepted slope moves a running estimate a quarter of the way to it. */
  lemma SmoothBetween(bps: real, raw: real)
    requires MIN_BPS <= raw <= MAX_BPS && bps != 0.0
    ensures Smooth(bps, raw) - bps == (raw - bps) / 4.0
    ensures (if raw <= bps then raw <= Smooth(bps, raw) <= bps else bps <= Smooth(bps, raw) <= raw)
  {
  }

  // ---- what one observation measures, in its fields ----

  /** From rate bps to bps', over these bytes and ticks of 27 MHz: nothing if their
      rate is below 10^4 or above 5 * 10^8 bytes a second, else that rate from
      zero, else three quarters of the old rate and a quarter of that one. */
  ghost predicate MeasuredAs(bps: real, bps': real, bytes: int, clock: int) {
    if bytes * 27_000_000 < 10_000 * clock || bytes * 27_000_000 > 500_000_000 * clock then bps' == bps
    else if bps == 0.0 then bps' * clock as real == (bytes * 27_000_000) as real
    else (4.0 * bps' - 3.0 * bps) * clock as real == (bytes * 27_000_000) as real
  }

  /** Everything that one observation does. Of another program it does nothing.
      Otherwise the sample enters the window of eight; with a first sample there is
      nothing to measure; without an advance of bytes and clock, the clock taken
      modulo 2^42 and up to half of that, only the sample stays; and else the rate
      of the window, if it is sane, is the estimate at first, and later a quarter
      of it. */
  lemma ObservedExactly(e: Estimate, pid: nat, s: Sample, e': Estimate)
    requires |e.window| <= 8 && e' == Observe(e, pid, s)
    ensures e.pid != 0 && e.pid != pid ==> e' == e
    ensures e.pid == 0 || e.pid == pid ==>
      e'.pid == pid
      && var w := (if |e.window| < 8 then e.window else e.window[1..]) + [s];
         var bytes, ticks := s.bytes - w[0].bytes, s.ticks - w[0].ticks;
         var clock := if ticks < 0 then ticks + 0x400_0000_0000 else ticks;
         if |w| < 2 then e'.window == w && e'.bps == e.bps
         else if bytes <= 0 || clock <= 0 || clock > 0x200_0000_0000 then e'.window == [s] && e'.bps == e.bps
         else
           e'.window == w && MeasuredAs(e.bps, e'.bps, bytes, clock)
  {
    hide MeasuredAs, RawBps, Smooth;
    if e.pid == 0 || e.pid == pid {
      var w := (if |e.window| < 8 then e.window else e.window[1..]) + [s];
      assert Push(e.window, s) == w;
      hide Push;
      if |w| >= 2 && !Discards(e.window, s) {
        Measured(e.bps, s.bytes - w[0].bytes, TickDelta(s.ticks, w[0].ticks));
      }
    }
  }

  lemma Measured(bps: real, bytes: int, clock: int)
    requires clock > 0
    ensures MeasuredAs(bps, Smooth(bps, RawBps(bytes, clock)), bytes, clock)
  {
    hide RawBps;
    RateInBand(bytes, clock);
    RateTimesClock(bytes, clock);
    MeasuredRate(bps, RawBps(bytes, clock), Smooth(bps, RawBps(bytes, clock)), clock as real);
  }

  lemma RateTimesClock(dBytes: int, dTicks: int)
    requires dTicks > 0
    ensures RawBps(dBytes, dTicks) * dTicks as real == (dBytes * CLOCK_RATE) as real
  {
    var t := dTicks as real / CLOCK_RATE as real;
    assert RawBps(dBytes, dTicks) * t == dBytes as real;
    assert t * CLOCK_RATE as real == dTicks as real;
    MulAssoc(RawBps(dBytes, dTicks), t, CLOCK_RATE as real);
  }

  lemma MulAssoc(x: real, y: real, z: real)
    ensures (x * y) * z == x * (y * z)
  {
  }

  lemma MeasuredRate(bps: real, raw: real, bps': real, t: real)
    requires MIN_BPS <= raw <= MAX_BPS ==> bps' == if bps == 0.0 then raw else ALPHA * raw + (1.0 - ALPHA) * bps
    ensures MIN_BPS <= raw <= MAX_BPS ==> if bps == 0.0 then bps' * t == raw * t else (4.0 * bps' - 3.0 * bps) * t == raw * t
  {
    if MIN_BPS <= raw <= MAX_BPS && bps != 0.0 {
      assert 4.0 * bps' - 3.0 * bps == raw;
    }
  }

  /** From a to b the clock advances, and the bytes at r a second of 27 MHz ticks. */
  ghost predicate AtRate(r: real, a: Sample, b: Sample) {
    a.ticks < b.ticks && r * (b.ticks - a.ticks) as real == ((b.bytes - a.bytes) * 27_000_000) as real
  }

  /** A stream of one program with a steady rate r in the sane range: bytes and
      clock advance together from sample to sample, and eight samples span at most
      half the clock's range. */
  ghost predicate Steady(obs: seq<Observation>, pid: nat, r: real) {
    && 10_000.0 <= r <= 500_000_000.0
    && (forall k :: 0 <= k < |obs| ==> obs[k].pid == pid)
    && (forall j, k :: 0 <= j < k < |obs| ==> AtRate(r, obs[j].sample, obs[k].sample))
    && (forall j, k :: 0 <= j < k < |obs| && k - j < 8 ==>
          obs[k].sample.ticks - obs[j].sample.ticks <= 0x200_0000_0000)
  }

  function Samples(obs: seq<Observation>): seq<Sample> {
    seq(|obs|, k requires 0 <= k < |obs| => obs[k].sample)
  }

  /** A steady stream is measured as exactly its rate, from the second sample on. */
  lemma {:induction false} SteadyRateMeasured(obs: seq<Observation>, pid: nat, r: real)
    requires Steady(obs, pid, r)
    ensures var e := Observations(obs);
      e.window == LastN(Samples(obs), 8) && e.pid == (if obs == [] then 0 else pid)
      && e.bps == if |obs| < 2 then 0.0 else r
  {
    if obs != [] {
      hide Observe, Steady, SteadySince, Samples;
      var n := |obs| - 1;
      SteadyFront(obs, pid, r);
      SteadyRateMeasured(obs[..n], pid, r);
      var e, s := Observations(obs[..n]), obs[n].sample;
      SamplesSnoc(obs);
      if n > 0 {
        SteadySpan(obs, pid, r);
      }
      SteadyStep(e, Samples(obs[..n]), pid, s, r);
    }
  }

  lemma SamplesSnoc(obs: seq<Observation>)
    requires obs != []
    ensures Samples(obs) == Samples(obs[..|obs| - 1]) + [obs[|obs| - 1].sample] && Samples([]) == []
    ensures |Samples(obs)| == |obs| && |Samples(obs[..|obs| - 1])| == |obs| - 1
  {
  }

  lemma SteadyFront(obs: seq<Observation>, pid: nat, r: real)
    requires Steady(obs, pid, r) && obs != []
    ensures Steady(obs[..|obs| - 1], pid, r) && obs[|obs| - 1].pid == pid
  {
    hide AtRate;
  }

  ghost predicate SteadySince(r: real, oldest: Sample, s: Sample) {
    AtRate(r, oldest, s) && s.ticks - oldest.ticks <= 0x200_0000_0000 && 10_000.0 <= r <= 500_000_000.0
  }

  /** The newest sample against the oldest of the window it enters. */
  lemma SteadySpan(obs: seq<Observation>, pid: nat, r: real)
    requires Steady(obs, pid, r) && |obs| >= 2
    ensures SteadySince(r, LastN(Samples(obs), 8)[0], obs[|obs| - 1].sample)
  {
    hide AtRate;
    var i := if |obs| <= 8 then 0 else |obs| - 8;
    assert LastN(Samples(obs), 8)[0] == obs[i].sample;
  }

  lemma SteadyStep(e: Estimate, before: seq<Sample>, pid: nat, s: Sample, r: real)
    requires e.window == LastN(before, 8) && (before != [] ==> e.pid == pid) && (before == [] ==> e.pid == 0)
    requires e.bps == if |before| < 2 then 0.0 else r
    requires before != [] ==> SteadySince(r, LastN(before + [s], 8)[0], s)
    ensures var e' := Observe(e, pid, s);
      e'.window == LastN(before + [s], 8) && e'.pid == pid && e'.bps == if before == [] then 0.0 else r
  {
    hide Observe, MeasuredAs;
    var e' := Observe(e, pid, s);
    var w := (if |e.window| < 8 then e.window else e.window[1..]) + [s];
    assert w == LastN(before + [s], 8);
    ObservedExactly(e, pid, s, e');
    if before != [] {
      var clock, bytes := s.ticks - w[0].ticks, s.bytes - w[0].bytes;
      SteadySlope(r, clock, bytes);
      SteadyMeasured(e.bps, e'.bps, r, bytes, clock);
    }
  }

  lemma SteadySlope(r: real, clock: int, bytes: int)
    requires clock > 0 && 10_000.0 <= r <= 500_000_000.0 && r * clock as real == (bytes * 27_000_000) as real
    ensures bytes > 0 && 10_000 * clock <= bytes * 27_000_000 <= 500_000_000 * clock
  {
    var c, b := clock as real, (bytes * 27_000_000) as real;
    assert r * c == b;
    MulLeq(10_000.0, r, c);
    assert 10_000.0 * c <= b;
    MulLeq(r, 500_000_000.0, c);
    assert b <= 500_000_000.0 * c;
    assert 10_000.0 * c == (10_000 * clock) as real;
    assert 500_000_000.0 * c == (500_000_000 * clock) as real;
  }

  lemma MulLeq(x: real, y: real, t: real)
    requires x <= y && t > 0.0
    ensures x * t <= y * t
  {
    if x < y {
      MulLess(x, y, t);
    }
  }

  lemma SteadyMeasured(bps: real, bps': real, r: real, bytes: int, clock: int)
    requires MeasuredAs(bps, bps', bytes, clock) && clock > 0 && (bps == 0.0 || bps == r)
    requires 10_000 * clock <= bytes * 27_000_000 <= 500_000_000 * clock
    requires r * clock as real == (bytes * 27_000_000) as real
    ensures bps' == r
  {
    var c := clock as real;
    assert r * c == (bytes * 27_000_000) as real;
    SameRate(bps, bps', r, c);
  }

  lemma SameRate(bps: real, bps': real, r: real, c: real)
    requires c > 0.0 && (bps == 0.0 || bps == r)
    requires if bps == 0.0 then bps' * c == r * c else (4.0 * bps' - 3.0 * bps) * c == r * c
    ensures bps' == r
  {
    var x := if bps == 0.0 then bps' else 4.0 * bps' - 3.0 * bps;
    if x < r {
      MulLess(x, r, c);
    } else if r < x {
      MulLess(r, x, c);
    }
  }

  // ---- clocks that go backwards ----

  /** The modulus of a real 27 MHz program clock. */
  const PCR_MODULUS: int := 0x2_0000_0000 * 300

  /** Across a true wrap of a legal clock the computed advance is too large by
      the gap between 2^42 and the real modulus. */
  lemma WrapOvershoots(ticks: int, oldest: int)
    requires 0 <= ticks < PCR_MODULUS && 0 <= oldest < PCR_MODULUS
    ensures TickDelta(ticks, oldest)
         == (ticks - oldest) % PCR_MODULUS + (if ticks < oldest then MAX_TICKS - PCR_MODULUS else 0)
  {
  }

  /** The slope is in the sane range exactly when these whole numbers say so. */
  lemma RateInBand(dBytes: int, dTicks: int)
    requires dTicks > 0
    ensures MIN_BPS <= RawBps(dBytes, dTicks) <==> 10_000 * dTicks <= dBytes * CLOCK_RATE
    ensures RawBps(dBytes, dTicks) <= MAX_BPS <==> dBytes * CLOCK_RATE <= 500_000_000 * dTicks
  {
    var b, t := dBytes as real, dTicks as real / CLOCK_RATE as real;
    assert t > 0.0;
    assert b * (CLOCK_RATE as real) == (dBytes * CLOCK_RATE) as real;
    assert t * (CLOCK_RATE as real) == dTicks as real;
    DivCompare(b, t, MIN_BPS);
    DivCompare(b, t, MAX_BPS);
    assert MIN_BPS * t <= b <==> 10_000 * dTicks <= dBytes * CLOCK_RATE;
    assert b <= MAX_BPS * t <==> dBytes * CLOCK_RATE <= 500_000_000 * dTicks;
  }

  lemma DivCompare(a: real, t: real, m: real)
    requires t > 0.0
    ensures m <= a / t <==> m * t <= a
    ensures a / t <= m <==> a <= m * t
  {
    var q := a / t;
    assert q * t == a;
    if m < q {
      MulLess(m, q, t);
    } else if q < m {
      MulLess(q, m, t);
    }
  }

  lemma MulLess(x: real, y: real, t: real)
    requires x < y && t > 0.0
    ensures x * t < y * t
  {
    assert (y - x) * t > 0.0;
  }

  /** The clock of the sample lies below the oldest one in the window. */
  ghost predicate Backwards(e: Estimate, s: Sample) {
    0 <= s.ticks < Push(e.window, s)[0].ticks <= PCR_TICK_MAX
  }

  /** Bytes from the oldest sample in the window to this one. */
  function Span(e: Estimate, s: Sample): int {
    s.bytes - Push(e.window, s)[0].bytes
  }

  /** What a backwards clock does to the estimate: nothing, unless the computed
      advance is at most half the range and its slope is in the sane range. */
  lemma BackwardsClockEffect(e: Estimate, pid: nat, s: Sample)
    requires Backwards(e, s)
    ensures var d := TickDelta(s.ticks, Push(e.window, s)[0].ticks);
      var taken := (e.pid == 0 || e.pid == pid) && d <= HALF_TICKS
        && 10_000 * d <= Span(e, s) * CLOCK_RATE <= 500_000_000 * d;
      d > 0
      && Observe(e, pid, s).bps
         == if !taken then e.bps
            else if e.bps == 0.0 then RawBps(Span(e, s), d)
            else ALPHA * RawBps(Span(e, s), d) + (1.0 - ALPHA) * e.bps
  {
    hide RawBps;
    var w := Push(e.window, s);
    assert |w| >= 2;
    RateInBand(Span(e, s), TickDelta(s.ticks, w[0].ticks));
  }

  /** Byte spans between these two are the ones for which a backwards clock can
      look like a sane rate. */
  const SAFE_SPAN: int := 674_468_938
  const TOP_SPAN: int := 40_722_652_880_592

  /** A sample whose clock lies below the oldest one in the window, a wrap
      included, leaves the estimate as it was, for every span up to SAFE_SPAN and
      every span above TOP_SPAN. */
  lemma BackwardsClockIgnored(e: Estimate, pid: nat, s: Sample)
    requires Backwards(e, s) && (Span(e, s) <= SAFE_SPAN || Span(e, s) > TOP_SPAN)
    ensures Observe(e, pid, s).bps == e.bps
  {
    hide Observe, RawBps;
    BackwardsClockEffect(e, pid, s);
  }

  /** And for no other span: some run of two observations has a backwards clock
      that sets the estimate. */
  lemma BackwardsClockTaken(span: int) returns (obs: seq<Observation>, o: Observation)
    requires SAFE_SPAN < span <= TOP_SPAN
    ensures Backwards(Observations(obs), o.sample) && Span(Observations(obs), o.sample) == span
    ensures Observe(Observations(obs), o.pid, o.sample).bps != Observations(obs).bps
  {
    hide Smooth, RawBps;
    var d := if span * CLOCK_RATE <= 500_000_000 * (MAX_TICKS - PCR_TICK_MAX) then MAX_TICKS - PCR_TICK_MAX else HALF_TICKS;
    var first, s := Sample(0, PCR_TICK_MAX), Sample(span, d - (MAX_TICKS - PCR_TICK_MAX));
    obs, o := [Observation(1, first)], Observation(1, s);
    OneObservation(first);
    assert Push([first], s) == [first, s];
    BackwardsClockEffect(Observations(obs), 1, s);
    RateInBand(span, d);
  }

  lemma OneObservation(s: Sample)
    ensures Observations([Observation(1, s)]) == Estimate(1, [s], 0.0)
  {
    assert [Observation(1, s)][..0] == [];
    assert Push([], s) == [s];
  }

  /** Every backwards clock of this byte span is ignored, whatever came before. */
  ghost predicate AlwaysIgnored(span: int) {
    forall obs: seq<Observation>, o: Observation ::
      Backwards(Observations(obs), o.sample) && Span(Observations(obs), o.sample) == span ==>
        Observe(Observations(obs), o.pid, o.sample).bps == Observations(obs).bps
  }

  /** The spans that are safe from a wrap, exactly. */
  lemma WrapSafeExactly(span: int)
    ensures AlwaysIgnored(span) <==> span <= SAFE_SPAN || span > TOP_SPAN
  {
    hide Observe, Observations, Backwards, Span;
    if span <= SAFE_SPAN || span > TOP_SPAN {
      forall obs: seq<Observation>, o: Observation
        | Backwards(Observations(obs), o.sample) && Span(Observations(obs), o.sample) == span
        ensures Observe(Observations(obs), o.pid, o.sample).bps == Observations(obs).bps
      {
        BackwardsClockIgnored(Observations(obs), o.pid, o.sample);
      }
    } else {
      var obs, o := BackwardsClockTaken(span);
    }
  }
}
