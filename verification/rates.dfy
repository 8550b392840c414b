/**
  Counter-delta rates (`get_speeds`).

  The operating system keeps cumulative byte counters for the network
  (received, sent) and for the disks (read, written). Each step reads the
  counters and the clock once, divides each counter's growth since the
  previous step by the elapsed time, and then replaces the stored previous
  reading by the current one. The stored reading, which the program keeps in
  process-wide variables, is passed in and returned here.
 */
module Rates {

  datatype NetCounters = NetCounters(bytesRecv: int, bytesSent: int)

  datatype DiskCounters = DiskCounters(readBytes: int, writeBytes: int)

  /** One read of all four counters. */
  datatype Snapshot = Snapshot(net: NetCounters, disk: DiskCounters)

  /** What is remembered between steps: the previous counters and the time they were read. */
  datatype RateState = RateState(prevNet: NetCounters, prevDisk: DiskCounters, prevTime: real)

  /** Bytes per second on each channel. */
  datatype ChannelRates = ChannelRates(inbound: real, outbound: real, disk: real)

  datatype Channel = Inbound | Outbound | Disk

  /** The cumulative count a channel's rate is derived from; disk is reads plus writes. */
  function Counter(net: NetCounters, disk: DiskCounters, ch: Channel): int
  {
    match ch
    case Inbound => net.bytesRecv
    case Outbound => net.bytesSent
    case Disk => disk.readBytes + disk.writeBytes
  }

  function RateOf(r: ChannelRates, ch: Channel): real
  {
    match ch
    case Inbound => r.inbound
    case Outbound => r.outbound
    case Disk => r.disk
  }

  /** Substituted for an elapsed time of exactly zero. */
  const Epsilon: real := 0.000001

  /**
    The divisor of a step: the raw clock difference, not clamped even when
    negative, except that exactly zero becomes `Epsilon`.
   */
  function Elapsed(prevTime: real, currTime: real): (d: real)
    ensures d != 0.0
    ensures currTime == prevTime ==> d == Epsilon
    ensures currTime != prevTime ==> d == currTime - prevTime
  {
    var duration := currTime - prevTime;
    if duration == 0.0 then Epsilon else duration
  }

  /**
    One call of the rate calculator: rates from the counter growth since the
    stored reading, and the new stored reading.
   */
  function Step(prev: RateState, curr: Snapshot, currTime: real): (res: (ChannelRates, RateState))
    ensures res.1 == RateState(curr.net, curr.disk, currTime)
    ensures forall ch: Channel ::
              RateOf(res.0, ch) * Elapsed(prev.prevTime, currTime)
              == (Counter(curr.net, curr.disk, ch) - Counter(prev.prevNet, prev.prevDisk, ch)) as real
  {
    var duration := Elapsed(prev.prevTime, currTime);
    var inBytes := curr.net.bytesRecv - prev.prevNet.bytesRecv;
    var outBytes := curr.net.bytesSent - prev.prevNet.bytesSent;
    var diskBytes := (curr.disk.readBytes - prev.prevDisk.readBytes)
                     + (curr.disk.writeBytes - prev.prevDisk.writeBytes);
    var rates := ChannelRates(inBytes as real / duration, outBytes as real / duration, diskBytes as real / duration);
    (rates, RateState(curr.net, curr.disk, currTime))
  }

  /** A channel whose counter did not move reports a rate of zero. */
  lemma UnchangedCounterGivesZero(prev: RateState, curr: Snapshot, currTime: real, ch: Channel)
    requires Counter(curr.net, curr.disk, ch) == Counter(prev.prevNet, prev.prevDisk, ch)
    ensures RateOf(Step(prev, curr, currTime).0, ch) == 0.0
  {
    var d := Elapsed(prev.prevTime, currTime);
    assert RateOf(Step(prev, curr, currTime).0, ch) * d == 0.0;
  }

  /** Each rate is the counter growth over the elapsed time, whatever its sign. */
  lemma RateIsDeltaOverElapsed(prev: RateState, curr: Snapshot, currTime: real, ch: Channel)
    ensures RateOf(Step(prev, curr, currTime).0, ch)
            == (Counter(curr.net, curr.disk, ch) - Counter(prev.prevNet, prev.prevDisk, ch)) as real
               / Elapsed(prev.prevTime, currTime)
  {
  }

  /** Counters (1000, 2000) then (1500, 2500) one second apart give 500 B/s each way. */
  lemma OneSecondExample(disk: DiskCounters)
    ensures Step(RateState(NetCounters(1000, 2000), disk, 10.0),
                 Snapshot(NetCounters(1500, 2500), disk), 11.0).0
            == ChannelRates(500.0, 500.0, 0.0)
  {
  }

  /** Two readings taken at the same instant divide by `Epsilon`, not by zero. */
  lemma SameInstantUsesEpsilon(prev: RateState, curr: Snapshot, ch: Channel)
    ensures RateOf(Step(prev, curr, prev.prevTime).0, ch)
            == (Counter(curr.net, curr.disk, ch) - Counter(prev.prevNet, prev.prevDisk, ch)) as real * 1000000.0
  {
  }

  /** One counter/clock read per step. */
  datatype Reading = Reading(snapshot: Snapshot, time: real)

  /** The stored reading after a run of steps. */
  function Replay(s: RateState, rs: seq<Reading>): (s': RateState)
    ensures |rs| > 0 ==> s' == RateState(rs[|rs| - 1].snapshot.net, rs[|rs| - 1].snapshot.disk, rs[|rs| - 1].time)
    ensures |rs| == 0 ==> s' == s
    decreases |rs|
  {
    if |rs| == 0 then s
    else Replay(Step(s, rs[0].snapshot, rs[0].time).1, rs[1..])
  }

  /** The bytes a run of steps accounts for on one channel: each rate times its divisor. */
  function AccountedBytes(s: RateState, rs: seq<Reading>, ch: Channel): real
    decreases |rs|
  {
    if |rs| == 0 then 0.0
    else
      var (r, s') := Step(s, rs[0].snapshot, rs[0].time);
      RateOf(r, ch) * Elapsed(s.prevTime, rs[0].time) + AccountedBytes(s', rs[1..], ch)
  }

  /**
    Over consecutive steps the per-step counter growth telescopes: the bytes
    the rates account for equal the last counter minus the first.
   */
  lemma {:induction false} DeltasTelescope(s: RateState, rs: seq<Reading>, ch: Channel)
    ensures AccountedBytes(s, rs, ch)
            == (Counter(Replay(s, rs).prevNet, Replay(s, rs).prevDisk, ch)
                - Counter(s.prevNet, s.prevDisk, ch)) as real
    decreases |rs|
  {
    if |rs| > 0 {
      var s' := Step(s, rs[0].snapshot, rs[0].time).1;
      DeltasTelescope(s', rs[1..], ch);
    }
  }
}
