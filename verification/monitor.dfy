/**
  The sampling loop's cycle body and the eight series it fills.

  Each cycle reads the clock, records the interval since the previous
  cycle's reading (with no guard against zero), advances the stored cycle
  time, runs the encryption and decryption benchmarks, one rate step and the
  disk probe, and appends exactly one value to each of eight parallel lists.
  Everything the cycle reads from the outside world arrives in one
  `CycleInputs` record.
 */
module Monitor {

  import Benchmark
  import Rates
  import DiskProbe

  /** One completed cycle: a row across the eight lists. */
  datatype Sample = Sample(
    timestamp: string,
    interval: real,
    encSpeed: real,
    decSpeed: real,
    inTraffic: real,
    outTraffic: real,
    diskIo: real,
    diskEncSpeed: real)

  /** The eight module-level lists the loop appends to. */
  datatype Series = Series(
    timestamps: seq<string>,
    timeIntervals: seq<real>,
    encSpeeds: seq<real>,
    decSpeeds: seq<real>,
    inTraffic: seq<real>,
    outTraffic: seq<real>,
    diskIo: seq<real>,
    diskEncSpeeds: seq<real>)

  /** Number of completed cycles recorded. */
  function Length(s: Series): nat
  {
    |s.timestamps|
  }

  /** All eight lists have the same length, so index i is one cycle across them. */
  predicate Aligned(s: Series)
  {
    && |s.timeIntervals| == Length(s)
    && |s.encSpeeds| == Length(s)
    && |s.decSpeeds| == Length(s)
    && |s.inTraffic| == Length(s)
    && |s.outTraffic| == Length(s)
    && |s.diskIo| == Length(s)
    && |s.diskEncSpeeds| == Length(s)
  }

  function Row(s: Series, i: nat): Sample
    requires Aligned(s) && i < Length(s)
  {
    Sample(s.timestamps[i], s.timeIntervals[i], s.encSpeeds[i], s.decSpeeds[i],
           s.inTraffic[i], s.outTraffic[i], s.diskIo[i], s.diskEncSpeeds[i])
  }

  const EmptySeries: Series := Series([], [], [], [], [], [], [], [])

  /** The eight appends at the end of a cycle. */
  function Append(s: Series, x: Sample): (r: Series)
    ensures Aligned(s) ==> Aligned(r) && Length(r) == Length(s) + 1
    ensures Aligned(s) ==> Row(r, Length(s)) == x
    ensures Aligned(s) ==> forall i :: 0 <= i < Length(s) ==> Row(r, i) == Row(s, i)
  {
    Series(s.timestamps + [x.timestamp],
           s.timeIntervals + [x.interval],
           s.encSpeeds + [x.encSpeed],
           s.decSpeeds + [x.decSpeed],
           s.inTraffic + [x.inTraffic],
           s.outTraffic + [x.outTraffic],
           s.diskIo + [x.diskIo],
           s.diskEncSpeeds + [x.diskEncSpeed])
  }

  /**
    The loop's state between cycles: the series so far, the previous cycle's
    start time, and the rate calculator's stored reading.
   */
  datatype MonitorState = MonitorState(series: Series, prevTimestamp: real, rates: Rates.RateState)

  /**
    The state when the loop starts: empty lists, the counters and time read
    at start-up for the rate calculator, and the clock read just before the
    loop as the first previous cycle time.
   */
  function Start(initial: Rates.Snapshot, countersTime: real, loopStart: real): (m: MonitorState)
    ensures Aligned(m.series) && Length(m.series) == 0
    ensures m.prevTimestamp == loopStart
    ensures m.rates == Rates.RateState(initial.net, initial.disk, countersTime)
  {
    MonitorState(EmptySeries, loopStart, Rates.RateState(initial.net, initial.disk, countersTime))
  }

  /** Everything one cycle reads from the outside world. */
  datatype CycleInputs = CycleInputs(
    stamp: string,
    currentTime: real,
    encClock: seq<real>,
    decClock: seq<real>,
    counters: Rates.Snapshot,
    countersTime: real,
    storage: DiskProbe.Storage,
    probeStart: real,
    probeEnd: real)

  /** Both benchmark clocks run forward and get past their one-second budget. */
  predicate ValidInputs(c: CycleInputs)
  {
    && Benchmark.NonDecreasing(c.encClock) && Benchmark.Expires(c.encClock)
    && Benchmark.NonDecreasing(c.decClock) && Benchmark.Expires(c.decClock)
  }

  /**
    The sample one cycle appends, given the state it starts from: the raw
    interval since the previous cycle, the two benchmark rates, one rate step
    against the stored counters, and the disk probe's rate.
   */
  function Measure(m: MonitorState, c: CycleInputs, block: seq<Benchmark.Byte>): (x: Sample)
    requires ValidInputs(c)
    ensures x.timestamp == c.stamp
    ensures x.interval == c.currentTime - m.prevTimestamp
    ensures x.encSpeed == Benchmark.BenchmarkRate(c.encClock, |block|) && x.encSpeed >= 0.0
    ensures x.decSpeed == Benchmark.BenchmarkRate(c.decClock, |block|) && x.decSpeed >= 0.0
    ensures x.inTraffic * Rates.Elapsed(m.rates.prevTime, c.countersTime)
            == (c.counters.net.bytesRecv - m.rates.prevNet.bytesRecv) as real
    ensures x.outTraffic * Rates.Elapsed(m.rates.prevTime, c.countersTime)
            == (c.counters.net.bytesSent - m.rates.prevNet.bytesSent) as real
    ensures x.diskIo * Rates.Elapsed(m.rates.prevTime, c.countersTime)
            == ((c.counters.disk.readBytes - m.rates.prevDisk.readBytes)
                + (c.counters.disk.writeBytes - m.rates.prevDisk.writeBytes)) as real
    ensures x.diskEncSpeed == DiskProbe.ProbeRate(c.storage, block, c.probeStart, c.probeEnd)
  {
    var step := Rates.Step(m.rates, c.counters, c.countersTime);
    assert Rates.RateOf(step.0, Rates.Inbound) == step.0.inbound;
    assert Rates.RateOf(step.0, Rates.Outbound) == step.0.outbound;
    assert Rates.RateOf(step.0, Rates.Disk) == step.0.disk;
    var rates := step.0;
    Sample(c.stamp,
           c.currentTime - m.prevTimestamp,
           Benchmark.BenchmarkRate(c.encClock, |block|),
           Benchmark.BenchmarkRate(c.decClock, |block|),
           rates.inbound,
           rates.outbound,
           rates.disk,
           DiskProbe.ProbeRate(c.storage, block, c.probeStart, c.probeEnd))
  }

  /** One pass of the loop body. */
  function Cycle(m: MonitorState, c: CycleInputs, block: seq<Benchmark.Byte>): (m': MonitorState)
    requires ValidInputs(c)
    ensures m'.prevTimestamp == c.currentTime
    ensures m'.rates == Rates.RateState(c.counters.net, c.counters.disk, c.countersTime)
    ensures Aligned(m.series) ==> Aligned(m'.series) && Length(m'.series) == Length(m.series) + 1
    ensures Aligned(m.series) ==> Row(m'.series, Length(m.series)) == Measure(m, c, block)
    ensures Aligned(m.series) ==> forall i :: 0 <= i < Length(m.series) ==> Row(m'.series, i) == Row(m.series, i)
  {
    var sample := Measure(m, c, block);
    var rateState := Rates.Step(m.rates, c.counters, c.countersTime).1;
    MonitorState(Append(m.series, sample), c.currentTime, rateState)
  }

  /**
    The `while True` loop run for a number of cycles: each cycle adds one
    aligned row, and the stored cycle time ends at the last cycle's start.
   */
  function Run(m: MonitorState, cs: seq<CycleInputs>, block: seq<Benchmark.Byte>): (r: MonitorState)
    requires forall i :: 0 <= i < |cs| ==> ValidInputs(cs[i])
    ensures Aligned(m.series) ==> Aligned(r.series) && Length(r.series) == Length(m.series) + |cs|
    ensures |cs| == 0 ==> r == m
    ensures |cs| > 0 ==> r.prevTimestamp == cs[|cs| - 1].currentTime
    decreases |cs|
  {
    if |cs| == 0 then m
    else Run(Cycle(m, cs[0], block), cs[1..], block)
  }

  /**
    After any number of cycles the eight lists are still aligned, each has
    grown by exactly the number of cycles, and earlier rows are untouched.
   */
  lemma {:induction false} RunKeepsAligned(m: MonitorState, cs: seq<CycleInputs>, block: seq<Benchmark.Byte>)
    requires forall i :: 0 <= i < |cs| ==> ValidInputs(cs[i])
    requires Aligned(m.series)
    ensures Aligned(Run(m, cs, block).series)
    ensures Length(Run(m, cs, block).series) == Length(m.series) + |cs|
    ensures forall i :: 0 <= i < Length(m.series) ==> Row(Run(m, cs, block).series, i) == Row(m.series, i)
    decreases |cs|
  {
    if |cs| > 0 {
      var m' := Cycle(m, cs[0], block);
      RunKeepsAligned(m', cs[1..], block);
    }
  }

  /** A run stopped between cycles holds one row per completed cycle, no partial row. */
  lemma StoppedRunHasOneRowPerCycle(initial: Rates.Snapshot, countersTime: real, loopStart: real,
                                    cs: seq<CycleInputs>, block: seq<Benchmark.Byte>)
    requires forall i :: 0 <= i < |cs| ==> ValidInputs(cs[i])
    ensures Aligned(Run(Start(initial, countersTime, loopStart), cs, block).series)
    ensures Length(Run(Start(initial, countersTime, loopStart), cs, block).series) == |cs|
  {
    RunKeepsAligned(Start(initial, countersTime, loopStart), cs, block);
  }

  function Sum(xs: seq<real>): real
  {
    if |xs| == 0 then 0.0 else Sum(xs[..|xs| - 1]) + xs[|xs| - 1]
  }

  /** The stored cycle time ends at the last cycle's start time. */
  lemma {:induction false} RunEndsAtLastCycle(m: MonitorState, cs: seq<CycleInputs>, block: seq<Benchmark.Byte>)
    requires forall i :: 0 <= i < |cs| ==> ValidInputs(cs[i])
    requires |cs| > 0
    ensures Run(m, cs, block).prevTimestamp == cs[|cs| - 1].currentTime
    decreases |cs|
  {
    if |cs| > 1 {
      RunEndsAtLastCycle(Cycle(m, cs[0], block), cs[1..], block);
    }
  }

  /**
    The recorded intervals telescope: over a run they add up to the stored
    cycle time at the end minus the one the run started from.
   */
  lemma {:induction false} IntervalsTelescope(m: MonitorState, cs: seq<CycleInputs>, block: seq<Benchmark.Byte>)
    requires forall i :: 0 <= i < |cs| ==> ValidInputs(cs[i])
    requires Aligned(m.series)
    ensures Sum(Run(m, cs, block).series.timeIntervals)
            == Sum(m.series.timeIntervals) + (Run(m, cs, block).prevTimestamp - m.prevTimestamp)
    decreases |cs|
  {
    if |cs| > 0 {
      var m' := Cycle(m, cs[0], block);
      var xs := m.series.timeIntervals;
      assert m'.series.timeIntervals == xs + [cs[0].currentTime - m.prevTimestamp];
      assert (xs + [cs[0].currentTime - m.prevTimestamp])[..|xs|] == xs;
      IntervalsTelescope(m', cs[1..], block);
    }
  }

  /** The readings a run feeds to the rate calculator, one per cycle. */
  function Readings(cs: seq<CycleInputs>): seq<Rates.Reading>
  {
    seq(|cs|, i requires 0 <= i < |cs| => Rates.Reading(cs[i].counters, cs[i].countersTime))
  }

  /**
    The rate calculator's stored reading is advanced exactly once per cycle:
    after a run it is what replaying the run's readings through the rate
    steps gives.
   */
  lemma {:induction false} RunThreadsRateState(m: MonitorState, cs: seq<CycleInputs>, block: seq<Benchmark.Byte>)
    requires forall i :: 0 <= i < |cs| ==> ValidInputs(cs[i])
    ensures Run(m, cs, block).rates == Rates.Replay(m.rates, Readings(cs))
    decreases |cs|
  {
    if |cs| > 0 {
      var m' := Cycle(m, cs[0], block);
      RunThreadsRateState(m', cs[1..], block);
      assert Readings(cs[1..]) == Readings(cs)[1..];
    }
  }

  /**
    A probe that cannot create or read its test file still yields a full
    row: the disk encryption column is 0 and the other columns are measured
    as usual.
   */
  lemma ProbeFailureStillAppends(m: MonitorState, c: CycleInputs, block: seq<Benchmark.Byte>)
    requires ValidInputs(c) && Aligned(m.series)
    requires DiskProbe.ReadTestFile(c.storage, block).IOError?
    ensures Aligned(Cycle(m, c, block).series)
    ensures Length(Cycle(m, c, block).series) == Length(m.series) + 1
    ensures Row(Cycle(m, c, block).series, Length(m.series)) == Measure(m, c, block).(diskEncSpeed := 0.0)
  {
  }

  /** Two cycles starting at the same instant record an interval of 0, not an epsilon. */
  lemma SameInstantIntervalIsZero(m: MonitorState, c: CycleInputs, block: seq<Benchmark.Byte>)
    requires ValidInputs(c) && Aligned(m.series)
    requires c.currentTime == m.prevTimestamp
    ensures Row(Cycle(m, c, block).series, Length(m.series)).interval == 0.0
  {
  }
}
