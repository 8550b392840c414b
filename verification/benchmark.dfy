/**
  Duration-bounded throughput benchmark (`measure_encryption_speed` and
  `measure_decryption_speed`).

  The clock is a sequence of wall-clock readings; every read of the clock
  consumes the next one. Reading 0 is the start time. Each test of the loop
  condition reads the clock again and, while less than one second has passed
  since the start, one pass transforms the whole reference block. After the
  first failing test one more reading gives the duration. The transform
  itself is not observed (its output is discarded), so a pass only adds the
  block length to the running total.
 */
module Benchmark {

  type Byte = bv8

  /** The wall-clock budget of one benchmark, in seconds. */
  const BudgetSeconds: real := 1.0

  predicate NonDecreasing(clock: seq<real>)
  {
    forall i, j :: 0 <= i <= j < |clock| ==> clock[i] <= clock[j]
  }

  /**
    Some loop test at or after reading `i` sees the budget used up, and a
    reading for the duration follows it.
   */
  predicate ExpiresFrom(clock: seq<real>, i: nat)
  {
    exists j :: i <= j < |clock| - 1 && 1 <= j && clock[j] - clock[0] >= BudgetSeconds
  }

  /** The clock runs out the budget within the readings given. */
  predicate Expires(clock: seq<real>)
  {
    ExpiresFrom(clock, 1)
  }

  /** The index of the first loop test, from reading `i` on, that ends the loop. */
  function ExpiryIndex(clock: seq<real>, i: nat): (e: nat)
    requires 1 <= i
    requires ExpiresFrom(clock, i)
    ensures i <= e < |clock| - 1
    ensures clock[e] - clock[0] >= BudgetSeconds
    ensures forall j :: i <= j < e ==> clock[j] - clock[0] < BudgetSeconds
    decreases |clock| - i
  {
    if clock[i] - clock[0] >= BudgetSeconds then i
    else ExpiryIndex(clock, i + 1)
  }

  /**
    The reported rate `(total * 8) / duration / 8`: the conversion to bits
    and back cancels, leaving bytes per second.
   */
  function BitRate(totalBytes: int, duration: real): (r: real)
    requires duration != 0.0
    ensures r * duration == totalBytes as real
  {
    ((totalBytes * 8) as real / duration) / 8.0
  }

  /** The rate a benchmark reports for a given clock and block length. */
  function BenchmarkRate(clock: seq<real>, blockLen: nat): (r: real)
    requires NonDecreasing(clock) && Expires(clock)
    ensures 0.0 <= r <= ((ExpiryIndex(clock, 1) - 1) * blockLen) as real
    ensures r * (clock[ExpiryIndex(clock, 1) + 1] - clock[0]) == ((ExpiryIndex(clock, 1) - 1) * blockLen) as real
  {
    var e := ExpiryIndex(clock, 1);
    var total := (e - 1) * blockLen;
    var duration := clock[e + 1] - clock[0];
    var r := BitRate(total, duration);
    RateAtMostWork(r, total, duration);
    r
  }

  /** A duration of at least one second never inflates the byte count. */
  lemma RateAtMostWork(r: real, total: nat, duration: real)
    requires duration >= BudgetSeconds
    requires r * duration == total as real
    ensures 0.0 <= r <= total as real
  {
    assert r * duration >= r * BudgetSeconds;
  }

  /**
    The benchmark loop as the program runs it. `passes` is the number of
    transforms performed; the running total is `passes` blocks.
   */
  method MeasureSpeed(clock: seq<real>, block: seq<Byte>) returns (rate: real, passes: nat)
    requires NonDecreasing(clock) && Expires(clock)
    ensures passes + 2 < |clock|
    ensures forall j :: 1 <= j <= passes ==> clock[j] - clock[0] < BudgetSeconds
    ensures clock[passes + 1] - clock[0] >= BudgetSeconds
    ensures passes + 1 == ExpiryIndex(clock, 1)
    ensures rate == BenchmarkRate(clock, |block|)
  {
    var startTime := clock[0];
    var t := 1;
    var totalBytes := 0;
    ghost var w :| 1 <= w < |clock| - 1 && clock[w] - clock[0] >= BudgetSeconds;
    while clock[t] - startTime < BudgetSeconds
      invariant 1 <= t <= w
      invariant forall j :: 1 <= j < t ==> clock[j] - startTime < BudgetSeconds
      invariant totalBytes == (t - 1) * |block|
      decreases w - t
    {
      totalBytes := totalBytes + |block|;
      t := t + 1;
    }
    ExpiryIsFirst(clock, t);
    passes := t - 1;
    var duration := clock[t + 1] - startTime;
    rate := BitRate(totalBytes, duration);
  }

  /** The first reading at or past the budget is the one `ExpiryIndex` finds. */
  lemma {:induction false} ExpiryIsFirst(clock: seq<real>, t: nat)
    requires 1 <= t < |clock| - 1
    requires clock[t] - clock[0] >= BudgetSeconds
    requires forall j :: 1 <= j < t ==> clock[j] - clock[0] < BudgetSeconds
    ensures Expires(clock) && ExpiryIndex(clock, 1) == t
  {
  }

  /** If the first loop test already fails, nothing is transformed and the rate is 0. */
  lemma NoPassWhenBudgetAlreadySpent(clock: seq<real>, blockLen: nat)
    requires NonDecreasing(clock) && |clock| >= 3
    requires clock[1] - clock[0] >= BudgetSeconds
    ensures Expires(clock)
    ensures ExpiryIndex(clock, 1) == 1
    ensures BenchmarkRate(clock, blockLen) == 0.0
  {
  }

  /** Any pass over a non-empty block gives a strictly positive rate. */
  lemma PositiveWhenWorkDone(clock: seq<real>, blockLen: nat)
    requires NonDecreasing(clock) && Expires(clock)
    requires ExpiryIndex(clock, 1) > 1 && blockLen > 0
    ensures BenchmarkRate(clock, blockLen) > 0.0
  {
    var e := ExpiryIndex(clock, 1);
    var r := BenchmarkRate(clock, blockLen);
    assert r * (clock[e + 1] - clock[0]) > 0.0;
  }
}
